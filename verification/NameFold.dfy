/** collation.go: the key two names share when a collation calls them one. */
module NameFold {
  import opened Text

  /** A code point; a name is a sequence of them. */
  type Rune = nat

  /** unicode.SimpleFold: the next rune of a cycle. */
  type Folding = Rune -> Rune

  function Step(f: Folding, n: nat, r: Rune): Rune {
    if n == 0 then r else f(Step(f, n - 1, r))
  }

  ghost predicate Period(f: Folding, n: nat, r: Rune) {
    n > 0 && Step(f, n, r) == r
  }

  ghost predicate ComesRound(f: Folding, r: Rune) {
    exists n: nat :: Period(f, n, r)
  }

  /** Every rune's orbit is a cycle. */
  ghost predicate Cyclic(f: Folding) {
    forall r: Rune :: ComesRound(f, r)
  }

  ghost predicate SameOrbit(f: Folding, a: Rune, b: Rune) {
    exists n: nat :: Step(f, n, a) == b
  }

  ghost predicate IsLeast(f: Folding, r: Rune, m: Rune) {
    SameOrbit(f, r, m) && forall x: Rune :: SameOrbit(f, r, x) ==> m <= x
  }

  function AsciiUpper(r: Rune): Rune {
    if 'a' as nat <= r <= 'z' as nat then r - ('a' as nat - 'A' as nat) else r
  }

  /** What the tables say of ASCII: the two cases of a letter fold together, and
      no other two of its characters do. */
  ghost predicate FoldsAscii(f: Folding) {
    && (forall r: Rune :: r < 0x80 ==> SameOrbit(f, r, AsciiUpper(r)))
    && (forall a: Rune, b: Rune :: a < 0x80 && b < 0x80 && SameOrbit(f, a, b) ==> AsciiUpper(a) == AsciiUpper(b))
  }

  // ---- orbits ----

  lemma {:induction false} StepsAdd(f: Folding, m: nat, n: nat, r: Rune)
    ensures Step(f, m + n, r) == Step(f, m, Step(f, n, r))
  {
    if m > 0 { StepsAdd(f, m - 1, n, r); }
  }

  lemma OrbitHasSelf(f: Folding, r: Rune)
    ensures SameOrbit(f, r, r)
  {
    assert Step(f, 0, r) == r;
  }

  lemma OrbitIsTransitive(f: Folding, a: Rune, b: Rune, c: Rune)
    requires SameOrbit(f, a, b) && SameOrbit(f, b, c)
    ensures SameOrbit(f, a, c)
  {
    var n: nat :| Step(f, n, a) == b;
    var m: nat :| Step(f, m, b) == c;
    StepsAdd(f, m, n, a);
  }

  lemma {:induction false} StepBack(f: Folding, r: Rune)
    requires Cyclic(f)
    ensures SameOrbit(f, f(r), r)
  {
    assert ComesRound(f, r);
    var n: nat :| Period(f, n, r);
    StepsAdd(f, n - 1, 1, r);
    assert Step(f, 1, r) == f(Step(f, 0, r));
    assert Step(f, n - 1, f(r)) == r;
  }

  lemma {:induction false} StepsBack(f: Folding, n: nat, r: Rune)
    requires Cyclic(f)
    ensures SameOrbit(f, Step(f, n, r), r)
  {
    if n == 0 {
      OrbitHasSelf(f, r);
    } else {
      StepsBack(f, n - 1, r);
      StepBack(f, Step(f, n - 1, r));
      OrbitIsTransitive(f, Step(f, n, r), Step(f, n - 1, r), r);
    }
  }

  lemma OrbitIsSymmetric(f: Folding, a: Rune, b: Rune)
    requires Cyclic(f) && SameOrbit(f, a, b)
    ensures SameOrbit(f, b, a)
  {
    var n: nat :| Step(f, n, a) == b;
    StepsBack(f, n, a);
  }

  /** Past a period come only the runes before it. */
  lemma {:induction false} WithinPeriod(f: Folding, period: nat, n: nat, r: Rune) returns (k: nat)
    requires Period(f, period, r)
    ensures k < period && Step(f, n, r) == Step(f, k, r)
  {
    if n < period {
      k := n;
    } else {
      StepsAdd(f, n - period, period, r);
      k := WithinPeriod(f, period, n - period, r);
    }
  }

  // ---- the key of a rune ----

  lemma {:induction false} LeastExists(f: Folding, r: Rune, found: Rune)
    requires SameOrbit(f, r, found)
    ensures exists m: Rune :: IsLeast(f, r, m)
    decreases found
  {
    if x: Rune :| SameOrbit(f, r, x) && x < found {
      LeastExists(f, r, x);
    } else {
      assert IsLeast(f, r, found);
    }
  }

  ghost function KeyRune(f: Folding, r: Rune): (m: Rune)
    ensures IsLeast(f, r, m)
  {
    OrbitHasSelf(f, r);
    LeastExists(f, r, r);
    var m: Rune :| IsLeast(f, r, m);
    m
  }

  lemma LeastIsOne(f: Folding, r: Rune, m: Rune)
    requires IsLeast(f, r, m)
    ensures m == KeyRune(f, r)
  {
  }

  /** Two runes have one key exactly when they fold together. */
  lemma KeysMeetIffOrbitsDo(f: Folding, a: Rune, b: Rune)
    requires Cyclic(f)
    ensures KeyRune(f, a) == KeyRune(f, b) <==> SameOrbit(f, a, b)
  {
    var m, n := KeyRune(f, a), KeyRune(f, b);
    OrbitIsSymmetric(f, a, m);
    OrbitIsSymmetric(f, b, n);
    if m == n {
      OrbitIsTransitive(f, a, m, b);
    }
    if SameOrbit(f, a, b) {
      OrbitIsSymmetric(f, a, b);
      OrbitIsTransitive(f, a, b, n);
      OrbitIsTransitive(f, b, a, m);
    }
  }

  ghost predicate NotBackYet(f: Folding, r: Rune, n: nat) {
    forall k: nat {:trigger Step(f, k, r)} :: 0 < k < n ==> Step(f, k, r) != r
  }

  ghost predicate AtMost(f: Folding, r: Rune, n: nat, least: Rune) {
    forall k: nat {:trigger Step(f, k, r)} :: k < n ==> least <= Step(f, k, r)
  }

  ghost predicate Met(f: Folding, r: Rune, n: nat, least: Rune) {
    exists k: nat {:trigger Step(f, k, r)} :: k < n && Step(f, k, r) == least
  }

  /** The upper case of an ASCII character is the least of its orbit. */
  lemma AsciiUpperIsLeast(f: Folding, r: Rune)
    requires FoldsAscii(f) && r < 0x80
    ensures IsLeast(f, r, AsciiUpper(r))
  {
    forall x: Rune | SameOrbit(f, r, x) ensures AsciiUpper(r) <= x {
      if x < 0x80 { assert AsciiUpper(x) == AsciiUpper(r); }
    }
  }

  /** Steps of the walk so far: none of them back at the start, and the least of
      them at hand. */
  ghost predicate Walked(f: Folding, r: Rune, n: nat, least: Rune) {
    NotBackYet(f, r, n) && AtMost(f, r, n, least) && Met(f, r, n, least)
  }

  lemma {:induction false} WalkOn(f: Folding, r: Rune, n: nat, least: Rune)
    requires n > 0 && Walked(f, r, n, least) && Step(f, n, r) != r
    ensures var here := Step(f, n, r); Walked(f, r, n + 1, if here < least then here else least)
  {
    MetOneMore(f, r, n, least);
  }

  lemma {:induction false} MetOneMore(f: Folding, r: Rune, n: nat, least: Rune)
    requires Met(f, r, n, least)
    ensures Met(f, r, n + 1, Step(f, n, r)) && Met(f, r, n + 1, least)
  {
    var k: nat :| k < n && Step(f, k, r) == least;
    assert k < n + 1;
  }

  lemma {:induction false} WalkIsLeast(f: Folding, r: Rune, n: nat, least: Rune)
    requires Period(f, n, r) && Walked(f, r, n, least)
    ensures IsLeast(f, r, least)
  {
    forall x: Rune | SameOrbit(f, r, x) ensures least <= x {
      var j: nat :| Step(f, j, r) == x;
      var k := WithinPeriod(f, n, j, r);
    }
  }

  /** The smallest rune of the orbit: the walk round it ends. */
  method FoldKeyRune(f: Folding, r: Rune) returns (least: Rune)
    requires Cyclic(f) && FoldsAscii(f)
    ensures least == KeyRune(f, r)
  {
    if r < 0x80 {
      AsciiUpperIsLeast(f, r);
      LeastIsOne(f, r, AsciiUpper(r));
      if 'a' as nat <= r <= 'z' as nat { return r - ('a' as nat - 'A' as nat); }
      return r;
    }
    least := r;
    assert ComesRound(f, r);
    ghost var period: nat :| Period(f, period, r);
    ghost var n: nat := 1;
    var here := f(r);
    assert Step(f, 0, r) == r && Step(f, 1, r) == f(Step(f, 0, r));
    while here != r
      invariant 1 <= n <= period && here == Step(f, n, r)
      invariant Walked(f, r, n, least)
      decreases period - n
    {
      WalkOn(f, r, n, least);
      if here < least { least := here; }
      here, n := f(here), n + 1;
    }
    WalkIsLeast(f, r, n, least);
    LeastIsOne(f, r, least);
  }

  // ---- the key of a name ----

  ghost function KeyOf(f: Folding, name: seq<Rune>): (key: seq<Rune>)
    ensures |key| == |name|
  {
    seq(|name|, i requires 0 <= i < |name| => KeyRune(f, name[i]))
  }

  /** strings.EqualFold: the same orbit, rune by rune. */
  ghost predicate FoldsEqual(f: Folding, a: seq<Rune>, b: seq<Rune>) {
    |a| == |b| && forall i :: 0 <= i < |a| ==> SameOrbit(f, a[i], b[i])
  }

  ghost function NameKey(f: Folding, ignoresCase: bool, name: seq<Rune>): seq<Rune> {
    if ignoresCase then KeyOf(f, name) else name
  }

  ghost predicate SameName(f: Folding, ignoresCase: bool, a: seq<Rune>, b: seq<Rune>) {
    NameKey(f, ignoresCase, a) == NameKey(f, ignoresCase, b)
  }

  /** strings.Map(foldKeyRune, name), where the collation ignores case. */
  method MakeNameKey(f: Folding, ignoresCase: bool, name: seq<Rune>) returns (key: seq<Rune>)
    requires Cyclic(f) && FoldsAscii(f)
    ensures key == NameKey(f, ignoresCase, name)
  {
    if !ignoresCase { return name; }
    key := [];
    for i := 0 to |name|
      invariant |key| == i && forall k :: 0 <= k < i ==> key[k] == KeyRune(f, name[k])
    {
      var rune := FoldKeyRune(f, name[i]);
      key := key + [rune];
    }
  }

  /** Two names are the same exactly when they fold equal, or on a collation
      that minds case, when they are equal. */
  lemma SameNameIff(f: Folding, ignoresCase: bool, a: seq<Rune>, b: seq<Rune>)
    requires Cyclic(f)
    ensures SameName(f, ignoresCase, a, b) <==> if ignoresCase then FoldsEqual(f, a, b) else a == b
  {
    if ignoresCase && |a| == |b| {
      forall i | 0 <= i < |a| ensures KeyOf(f, a)[i] == KeyOf(f, b)[i] <==> SameOrbit(f, a[i], b[i]) {
        KeysMeetIffOrbitsDo(f, a[i], b[i]);
      }
    }
  }

  /** A key is a name's canonical form: the same name, its own key, and the one
      key of every name that is the same. */
  lemma KeyIsCanonical(f: Folding, ignoresCase: bool, name: seq<Rune>)
    requires Cyclic(f)
    ensures SameName(f, ignoresCase, name, NameKey(f, ignoresCase, name))
    ensures NameKey(f, ignoresCase, NameKey(f, ignoresCase, name)) == NameKey(f, ignoresCase, name)
  {
    forall i | 0 <= i < |name| ensures KeyRune(f, KeyRune(f, name[i])) == KeyRune(f, name[i]) {
      KeysMeetIffOrbitsDo(f, name[i], KeyRune(f, name[i]));
    }
  }

  // ---- which collations ignore case ----

  /** strings.Split(s, "_"). */
  function Split(s: string): (r: seq<string>)
    ensures r != []
    decreases |s|
  {
    var i := IndexOf(s, '_');
    if i == |s| then [s] else [s[..i]] + Split(s[i + 1..])
  }

  /** t stands in s between underscores or ends. */
  ghost predicate IsToken(s: string, before: string, t: string, after: string) {
    && s == before + t + after
    && '_' !in t
    && (before == "" || before[|before| - 1] == '_')
    && (after == "" || after[0] == '_')
  }

  lemma {:induction false} SplitHasTokens(s: string, before: string, t: string, after: string)
    requires IsToken(s, before, t, after)
    ensures t in Split(s)
    decreases |s|
  {
    var i := IndexOf(s, '_');
    if before == "" {
      assert s == t + after;
      if after == "" {
        assert s == t;
        assert '_' !in s;
      } else {
        IndexIs(s, '_', |t|);
        assert s[..i] == t;
      }
    } else {
      assert s[|before| - 1] == '_';
      var rest := before[i + 1..];
      assert s[i + 1..] == rest + t + after;
      SplitHasTokens(s[i + 1..], rest, t, after);
    }
  }

  lemma TokenAfterMark(s: string, i: nat, before: string, t: string, after: string)
    requires i < |s| && s[i] == '_' && IsToken(s[i + 1..], before, t, after)
    ensures IsToken(s, s[..i + 1] + before, t, after)
  {
    assert s == s[..i + 1] + s[i + 1..];
    assert s[..i + 1] + (before + t + after) == s[..i + 1] + before + t + after;
  }

  lemma FirstToken(s: string, i: nat)
    requires i < |s| && s[i] == '_' && forall k :: 0 <= k < i ==> s[k] != '_'
    ensures IsToken(s, "", s[..i], s[i..])
  {
    assert s == "" + s[..i] + s[i..];
  }

  lemma {:induction false} SplitIsTokens(s: string, k: nat) returns (before: string, after: string)
    requires k < |Split(s)|
    ensures IsToken(s, before, Split(s)[k], after)
    decreases |s|
  {
    var i := IndexOf(s, '_');
    if i == |s| {
      before, after := "", "";
      assert s == "" + s + "";
    } else if k == 0 {
      before, after := "", s[i..];
      FirstToken(s, i);
    } else {
      var inner: string;
      inner, after := SplitIsTokens(s[i + 1..], k - 1);
      before := s[..i + 1] + inner;
      TokenAfterMark(s, i, inner, Split(s)[k], after);
    }
  }

  const MINDS_CASE: set<string> := {"CS", "BIN", "BIN2"}

  /** A collation minds case if a whole token of its upper-cased name says so:
      letters that merely occur in it do not. */
  ghost predicate MindsCase(upper: string) {
    exists before, t, after :: t in MINDS_CASE && IsToken(upper, before, t, after)
  }

  /** Case-sensitive and binary collations mind case, and SQL Server's usual one does
      not. */
  lemma KnownCollations()
    ensures MindsCase("SQL_LATIN1_GENERAL_CP1_CS_AS")
    ensures MindsCase("LATIN1_GENERAL_BIN") && MindsCase("LATIN1_GENERAL_BIN2")
    ensures !MindsCase("LATIN1_GENERAL_CI_AS")
  {
    assert IsToken("SQL_LATIN1_GENERAL_CP1_CS_AS", "SQL_LATIN1_GENERAL_CP1_", "CS", "_AS");
    assert IsToken("LATIN1_GENERAL_BIN", "LATIN1_GENERAL_", "BIN", "");
    assert IsToken("LATIN1_GENERAL_BIN2", "LATIN1_GENERAL_", "BIN2", "");
    var usual := "LATIN1_GENERAL_CI_AS";
    forall before, t, after | IsToken(usual, before, t, after) ensures t !in MINDS_CASE {
      assert t != "" ==> usual[|before|] == t[0];
      assert |t| > 1 ==> usual[|before| + 1] == t[1];
    }
  }

  method CollationIgnoresCase(upper: string) returns (r: bool)
    ensures r <==> !MindsCase(upper)
  {
    var tokens := Split(upper);
    for i := 0 to |tokens|
      invariant forall k :: 0 <= k < i ==> tokens[k] !in MINDS_CASE
    {
      if tokens[i] == "CS" || tokens[i] == "BIN" || tokens[i] == "BIN2" {
        ghost var before, after := SplitIsTokens(upper, i);
        assert IsToken(upper, before, tokens[i], after);
        return false;
      }
    }
    forall before, t, after | IsToken(upper, before, t, after) ensures t !in MINDS_CASE {
      SplitHasTokens(upper, before, t, after);
    }
    return true;
  }
}
