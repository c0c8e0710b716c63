/** The text tests Go's strings package gives this code. */
module Text {

  /** unicode.IsSpace. */
  predicate IsSpace(c: char) {
    var n := c as int;
    || 0x09 <= n <= 0x0D || n == 0x20 || n == 0x85 || n == 0xA0 || n == 0x1680
    || 0x2000 <= n <= 0x200A || n == 0x2028 || n == 0x2029 || n == 0x202F || n == 0x205F || n == 0x3000
  }

  /** strings.TrimSpace leaves nothing. */
  predicate Blank(s: string) {
    forall i :: 0 <= i < |s| ==> IsSpace(s[i])
  }

  /** The first of s[from..] that is no space. */
  function FirstInk(s: string, from: nat): (i: nat)
    requires from <= |s|
    ensures from <= i <= |s|
    ensures i < |s| ==> !IsSpace(s[i])
    ensures forall k :: from <= k < i ==> IsSpace(s[k])
    decreases |s| - from
  {
    if from < |s| && IsSpace(s[from]) then FirstInk(s, from + 1) else from
  }

  /** Just past the last of s[from..to] that is no space. */
  function PastInk(s: string, from: nat, to: nat): (i: nat)
    requires from <= to <= |s|
    ensures from <= i <= to
    ensures from < i ==> !IsSpace(s[i - 1])
    ensures forall k :: i <= k < to ==> IsSpace(s[k])
  {
    if from < to && IsSpace(s[to - 1]) then PastInk(s, from, to - 1) else to
  }

  /** strings.TrimSpace. */
  function TrimSpace(s: string): string {
    var from := FirstInk(s, 0);
    s[from..PastInk(s, from, |s|)]
  }

  /** Text with no space at either end. */
  predicate Trimmed(s: string) {
    s != "" ==> !IsSpace(s[0]) && !IsSpace(s[|s| - 1])
  }

  /** It is what trimming leaves of itself between spaces. */
  lemma TrimsTo(before: string, ink: string, after: string)
    requires Blank(before) && Blank(after) && Trimmed(ink)
    ensures TrimSpace(before + ink + after) == ink
  {
    var s, b := before + ink + after, |before|;
    var from := FirstInk(s, 0);
    assert forall k :: 0 <= k < b ==> s[k] == before[k];
    assert forall k :: b + |ink| <= k < |s| ==> s[k] == after[k - b - |ink|];
    assert s[b..b + |ink|] == ink;
    if ink == "" {
      assert from == |s|;
    } else {
      assert s[b] == ink[0] && s[b + |ink| - 1] == ink[|ink| - 1];
      assert from == b && PastInk(s, from, |s|) == b + |ink|;
    }
  }

  // ---- letter case ----

  /** unicode.ToLower, and a rune that stands for its case-folding orbit. */
  datatype Unicode = Unicode(lower: char -> char, fold: char -> char)

  function AsciiLower(c: char): char {
    if 'A' <= c <= 'Z' then (c as int + 32) as char else c
  }

  /** What the case tables say of ASCII. */
  ghost predicate KeepsAscii(u: Unicode) {
    && (forall c: char {:trigger u.lower(c)} | c < '\U{80}' :: u.lower(c) == AsciiLower(c))
    && (forall c: char, d: char {:trigger u.fold(c), u.fold(d)} | c < '\U{80}' && d < '\U{80}' ::
          u.fold(c) == u.fold(d) <==> AsciiLower(c) == AsciiLower(d))
  }

  /** strings.ToLower. */
  function ToLower(u: Unicode, s: string): (r: string) {
    seq(|s|, i requires 0 <= i < |s| => u.lower(s[i]))
  }

  /** strings.EqualFold. */
  predicate EqualFold(u: Unicode, a: string, b: string) {
    |a| == |b| && forall i :: 0 <= i < |a| ==> u.fold(a[i]) == u.fold(b[i])
  }

  lemma FoldsApart(u: Unicode, a: string, b: string, i: nat)
    requires i < |a| && i < |b| && u.fold(a[i]) != u.fold(b[i])
    ensures !EqualFold(u, a, b)
  {
  }

  // ---- finding and cutting ----

  /** strings.IndexByte, from a place on; |s| stands for its -1. */
  function IndexFrom(s: string, c: char, from: nat): (i: nat)
    requires from <= |s|
    ensures from <= i <= |s|
    ensures i < |s| ==> s[i] == c
    ensures forall k :: from <= k < i ==> s[k] != c
    decreases |s| - from
  {
    if from == |s| || s[from] == c then from else IndexFrom(s, c, from + 1)
  }

  function IndexOf(s: string, c: char): nat {
    IndexFrom(s, c, 0)
  }

  lemma IndexIs(s: string, c: char, i: nat)
    requires i < |s| && s[i] == c && forall k :: 0 <= k < i ==> s[k] != c
    ensures IndexOf(s, c) == i
  {
  }

  lemma SeparatorAt(a: string, x: string, sep: char)
    requires sep !in a
    ensures (a + [sep] + x)[|a|] == sep
    ensures forall i :: 0 <= i < |a| ==> (a + [sep] + x)[i] != sep
  {
  }

  /** Text cut at the first separator comes back in its parts. */
  lemma CutsOnce(a: string, b: string, x: string, y: string, sep: char)
    requires sep !in a && sep !in b
    requires a + [sep] + x == b + [sep] + y
    ensures a == b && x == y
  {
    var s := a + [sep] + x;
    SeparatorAt(a, x, sep);
    SeparatorAt(b, y, sep);
    assert |a| == |b|;
    assert a == s[..|a|] && b == s[..|b|];
    assert x == s[|a| + 1..] && y == s[|b| + 1..];
  }
}
