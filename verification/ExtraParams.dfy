/** connection_dsn.go: a caller's extra parameters merged into the query of a
    connection URL. Both are maps, and the loops over them take the entries in
    any order. */
module ExtraParams {
  import opened Text
  import opened Wrappers

  type Query = map<string, string>
  /** The parameters as given: a name may carry any number of values. */
  type Values = map<string, seq<string>>

  const RESERVED: set<string> := {
    "server", "port", "database", "user id", "password", "app name", "connection timeout",
    "encrypt", "trustservercertificate", "hostnameincertificate",
    "fedauth", "authenticator", "serverspn", "tenantid", "applicationclientid", "clientcertpath",
    "tokenfilepath", "sendcertificatechain", "disableinstancediscovery", "userassertion",
    "data source", "address", "network address", "addr", "initial catalog", "user", "uid", "pwd",
    "app", "application name", "connect timeout", "timeout",
    "trust server certificate", "host name in certificate", "server spn"
  }

  /** The one key with a default an extra parameter may replace. */
  const OVERRIDABLE := "dial timeout"

  const SYNONYMS: map<string, string> := map[
    "application intent" := "applicationintent",
    "multi subnet failover" := "multisubnetfailover",
    "failover partner" := "failoverpartner",
    "failover partner spn" := "failoverpartnerspn",
    "server certificate" := "servercertificate",
    "wsid" := "workstation id",
    "column encryption setting" := "columnencryption"
  ]

  predicate IsReserved(key: string) {
    key in RESERVED || "krb5-" <= key
  }

  /** The key the driver reads for a name. */
  function KeyOf(u: Unicode, name: string): string {
    var key := ToLower(u, TrimSpace(name));
    if key in SYNONYMS then SYNONYMS[key] else key
  }

  /** word is lower-case ASCII, and s is it in any mixture of cases. */
  predicate InAnyCase(s: string, word: string) {
    |s| == |word| && forall i :: 0 <= i < |s| ==> IsAsciiSmall(word[i]) && (s[i] == word[i] || IsCapital(s[i], word[i]))
  }

  predicate IsAsciiSmall(c: char) {
    c < '\U{80}' && !('A' <= c <= 'Z')
  }

  predicate IsCapital(c: char, small: char) {
    'a' <= small <= 'z' && c as int == small as int - 32
  }

  lemma LowersTo(u: Unicode, s: string, word: string)
    requires KeepsAscii(u) && InAnyCase(s, word)
    ensures ToLower(u, s) == word
  {
    forall i | 0 <= i < |s| ensures ToLower(u, s)[i] == word[i] {
      assert s[i] < '\U{80}';
      assert u.lower(s[i]) == AsciiLower(s[i]);
    }
  }

  /** name is word, in any mixture of cases, between spaces. */
  ghost predicate IsSpelled(name: string, word: string) {
    exists before, ink, after ::
      && Blank(before) && Blank(after) && Trimmed(ink) && InAnyCase(ink, word)
      && name == before + ink + after
  }

  lemma SpelledLowers(u: Unicode, name: string, word: string)
    requires KeepsAscii(u) && IsSpelled(name, word)
    ensures ToLower(u, TrimSpace(name)) == word
  {
    var before, ink, after :|
      Blank(before) && Blank(after) && Trimmed(ink) && InAnyCase(ink, word) && name == before + ink + after;
    TrimsTo(before, ink, after);
    LowersTo(u, ink, word);
  }

  /** The driver's key for a spelling of ADO.NET; any other word is itself. */
  function DriverKey(word: string): string {
    if word == "application intent" then "applicationintent"
    else if word == "multi subnet failover" then "multisubnetfailover"
    else if word == "failover partner" then "failoverpartner"
    else if word == "failover partner spn" then "failoverpartnerspn"
    else if word == "server certificate" then "servercertificate"
    else if word == "wsid" then "workstation id"
    else if word == "column encryption setting" then "columnencryption"
    else word
  }

  lemma SynonymsAre(word: string)
    ensures (if word in SYNONYMS then SYNONYMS[word] else word) == DriverKey(word)
  {
  }

  /** A name is read as its words, whatever its case and the space about it. */
  lemma KeysAreWords(u: Unicode, name: string, word: string)
    requires KeepsAscii(u) && IsSpelled(name, word)
    ensures KeyOf(u, name) == DriverKey(word)
  {
    SpelledLowers(u, name, word);
    SynonymsAre(word);
  }

  /** Only a name of nothing but space is empty. */
  lemma EmptyKeys(u: Unicode, name: string)
    ensures KeyOf(u, name) == "" <==> Blank(name)
  {
    var from := FirstInk(name, 0);
  }

  /** A key the connection options themselves write into a query; those of Kerberos
      all begin alike. */
  predicate IsWritten(key: string) {
    || key in {"database", "app name", "connection timeout", "encrypt", "trustservercertificate",
               "hostnameincertificate", "fedauth", "user id", "password", "tokenfilepath", "userassertion",
               "applicationclientid", "disableinstancediscovery", "tenantid", "clientcertpath",
               "sendcertificatechain", "serverspn", "authenticator"}
    || IsKerberos(key)
  }

  predicate IsKerberos(key: string) {
    |key| >= 5 && key[0] == 'k' && key[1] == 'r' && key[2] == 'b' && key[3] == '5' && key[4] == '-'
  }

  lemma WrittenIsReserved(key: string)
    requires IsWritten(key)
    ensures IsReserved(key)
  {
    if IsKerberos(key) { assert "krb5-" == key[..5]; }
  }

  datatype Reason = EmptyName | Reserved | Repeated | NotOneValue

  datatype Refusal = Refusal(name: string, reason: Reason)

  /** A lower-cased text that folds with t is t: so it is for "dial timeout",
      whose letters no other lower-case letter folds with. */
  ghost predicate OneSpelling(u: Unicode, t: string) {
    forall c: char, i {:trigger u.lower(c), t[i]} ::
      0 <= i < |t| && u.fold(u.lower(c)) == u.fold(t[i]) ==> u.lower(c) == t[i]
  }

  // ---- what a merge means, whatever the order ----

  ghost predicate Clashes(u: Unicode, q: Query, key: string) {
    exists x :: x in q && EqualFold(u, x, key)
  }

  /** An entry that may be merged as far as it and the query go. */
  ghost predicate Fits(u: Unicode, q: Query, key: string, values: seq<string>) {
    && key != "" && !IsReserved(key) && |values| == 1
    && (key == OVERRIDABLE || !Clashes(u, q, key))
  }

  ghost predicate Apart(u: Unicode, j: string, k: string) {
    !EqualFold(u, KeyOf(u, j), KeyOf(u, k))
  }

  ghost predicate AllFit(u: Unicode, q: Query, extra: Values, names: set<string>) {
    && (forall k :: k in names ==> k in extra && Fits(u, q, KeyOf(u, k), extra[k]))
    && (forall j, k :: j in names && k in names && j != k ==> Apart(u, j, k))
  }

  /** Every entry fits, and no two of them are one key to the driver. */
  ghost predicate Admissible(u: Unicode, q: Query, extra: Values) {
    AllFit(u, q, extra, extra.Keys)
  }

  ghost function KeysOf(u: Unicode, names: set<string>): set<string> {
    set k | k in names :: KeyOf(u, k)
  }

  /** What stays of the query: all of it but a default that was replaced. */
  ghost function Staying(u: Unicode, q: Query, keys: set<string>): set<string> {
    set x | x in q && (OVERRIDABLE in keys ==> !EqualFold(u, x, OVERRIDABLE))
  }

  /** r is the query with these entries in it. */
  ghost predicate IsMerge(u: Unicode, q: Query, extra: Values, names: set<string>, r: Query)
    requires AllFit(u, q, extra, names)
  {
    var keys := KeysOf(u, names);
    && r.Keys == keys + Staying(u, q, keys)
    && (forall k :: k in names ==> Carries(r, KeyOf(u, k), extra[k][0]))
    && QueryStays(u, q, keys, r)
  }

  /** What stays of the query, and is set by no entry, keeps its value. */
  ghost predicate QueryStays(u: Unicode, q: Query, keys: set<string>, r: Query) {
    forall x :: x in Staying(u, q, keys) && x !in keys ==> Carries(r, x, q[x])
  }

  ghost predicate Carries(r: Query, key: string, value: string) {
    key in r && r[key] == value
  }

  // ---- the loops ----

  lemma FoldIsSymmetric(u: Unicode, a: string, b: string)
    ensures EqualFold(u, a, b) == EqualFold(u, b, a)
  {
  }

  /** The entries of the query that key would double are deleted, which only an
      overridable key may do. */
  method DropExisting(u: Unicode, q: Query, key: string) returns (r: Option<Query>)
    ensures r.None? <==> key != OVERRIDABLE && Clashes(u, q, key)
    ensures r.Some? ==> r.value == Cleared(u, q, key)
  {
    var left, kept := q.Keys, q;
    while left != {}
      invariant left <= q.Keys
      invariant key != OVERRIDABLE ==> forall x :: x in q.Keys - left ==> !EqualFold(u, x, key)
      invariant kept == map x | x in q && (x in left || !EqualFold(u, x, key)) :: q[x]
      decreases left
    {
      var existing :| existing in left;
      if EqualFold(u, existing, key) {
        if key != OVERRIDABLE { return None; }
        kept := kept - {existing};
      }
      left := left - {existing};
    }
    return Some(kept);
  }

  lemma SynonymIsNotOverridable(u: Unicode, name: string)
    requires OneSpelling(u, OVERRIDABLE)
    ensures EqualFold(u, KeyOf(u, name), OVERRIDABLE) ==> KeyOf(u, name) == OVERRIDABLE
  {
    var low := ToLower(u, TrimSpace(name));
    if low in SYNONYMS {
      SynonymLengths(low);
    } else if EqualFold(u, low, OVERRIDABLE) {
      forall i | 0 <= i < |low| ensures low[i] == OVERRIDABLE[i] {
        assert low[i] == u.lower(TrimSpace(name)[i]);
      }
    }
  }

  lemma SynonymLengths(name: string)
    requires name in SYNONYMS
    ensures |SYNONYMS[name]| != |OVERRIDABLE|
  {
  }

  /** The query without what key would double. */
  ghost function Cleared(u: Unicode, q: Query, key: string): Query {
    map x | x in q && !EqualFold(u, x, key) :: q[x]
  }

  /** An entry the loop takes: it fits what has been merged so far. */
  ghost predicate Taken(u: Unicode, extra: Values, done: set<string>, now: Query, k: string) {
    && k in extra && k !in done
    && var key := KeyOf(u, k);
       && key != "" && !IsReserved(key) && |extra[k]| == 1 && key !in KeysOf(u, done)
       && (key == OVERRIDABLE || !Clashes(u, now, key))
  }

  /** One entry more. */
  lemma MergeOne(u: Unicode, q: Query, extra: Values, done: set<string>, now: Query, k: string)
    requires OneSpelling(u, OVERRIDABLE)
    requires AllFit(u, q, extra, done) && IsMerge(u, q, extra, done, now)
    requires Taken(u, extra, done, now, k)
    ensures AllFit(u, q, extra, done + {k})
    ensures var key := KeyOf(u, k);
            IsMerge(u, q, extra, done + {k}, Cleared(u, now, key)[key := extra[k][0]])
  {
    var key, keys := KeyOf(u, k), KeysOf(u, done);
    var r := Cleared(u, now, key)[key := extra[k][0]];
    OneMoreFits(u, q, extra, done, now, k);
    assert KeysOf(u, done + {k}) == keys + {key};
    EntriesStay(u, q, extra, done, now, k);
    KeysAfter(u, q, now, keys, key);
    ValuesAfter(u, q, now, keys, key, extra[k][0]);
  }

  /** What stays of the query keeps its value. */
  lemma ValuesAfter(u: Unicode, q: Query, now: Query, keys: set<string>, key: string, value: string)
    requires now.Keys == keys + Staying(u, q, keys)
    requires QueryStays(u, q, keys, now)
    requires key !in keys && (key == OVERRIDABLE || !Clashes(u, now, key))
    ensures QueryStays(u, q, keys + {key}, Cleared(u, now, key)[key := value])
  {
    StayingAfter(u, q, now, keys, key);
  }

  /** The entries merged before survive the one merged now. */
  lemma EntriesStay(u: Unicode, q: Query, extra: Values, done: set<string>, now: Query, k: string)
    requires AllFit(u, q, extra, done + {k}) && AllFit(u, q, extra, done) && IsMerge(u, q, extra, done, now)
    requires k in extra && k !in done && KeyOf(u, k) !in KeysOf(u, done)
    ensures forall x :: x in KeysOf(u, done) ==> x in now && !EqualFold(u, x, KeyOf(u, k))
    ensures var r := Cleared(u, now, KeyOf(u, k))[KeyOf(u, k) := extra[k][0]];
            forall j :: j in done + {k} ==> Carries(r, KeyOf(u, j), extra[j][0])
  {
    var key := KeyOf(u, k);
    var r := Cleared(u, now, key)[key := extra[k][0]];
    forall j | j in done
      ensures KeyOf(u, j) in now && !EqualFold(u, KeyOf(u, j), key) && Carries(r, KeyOf(u, j), extra[j][0])
    {
      assert Apart(u, j, k);
      assert KeyOf(u, j) in KeysOf(u, done);
      assert Carries(now, KeyOf(u, j), extra[j][0]);
    }
  }

  /** The keys after one more. */
  lemma KeysAfter(u: Unicode, q: Query, now: Query, keys: set<string>, key: string)
    requires now.Keys == keys + Staying(u, q, keys)
    requires key !in keys && (key == OVERRIDABLE || !Clashes(u, now, key))
    requires forall x :: x in keys ==> !EqualFold(u, x, key)
    ensures Cleared(u, now, key).Keys + {key} == keys + {key} + Staying(u, q, keys + {key})
  {
    StayingAfter(u, q, now, keys, key);
  }

  /** What one more key leaves of the query. */
  lemma StayingAfter(u: Unicode, q: Query, now: Query, keys: set<string>, key: string)
    requires now.Keys == keys + Staying(u, q, keys)
    requires key !in keys && (key == OVERRIDABLE || !Clashes(u, now, key))
    ensures Staying(u, q, keys + {key}) ==
            set x | x in Staying(u, q, keys) && !(key == OVERRIDABLE && EqualFold(u, x, key))
    ensures key != OVERRIDABLE ==> forall x :: x in now ==> !EqualFold(u, x, key)
  {
  }

  lemma OneMoreFits(u: Unicode, q: Query, extra: Values, done: set<string>, now: Query, k: string)
    requires OneSpelling(u, OVERRIDABLE)
    requires AllFit(u, q, extra, done) && IsMerge(u, q, extra, done, now)
    requires Taken(u, extra, done, now, k)
    ensures AllFit(u, q, extra, done + {k})
  {
    var key := KeyOf(u, k);
    forall j | j in done ensures Apart(u, j, k) && Apart(u, k, j) {
      assert KeyOf(u, j) in KeysOf(u, done);
      assert Carries(now, KeyOf(u, j), extra[j][0]);
      FoldIsSymmetric(u, KeyOf(u, j), key);
      SynonymIsNotOverridable(u, j);
    }
    if key != OVERRIDABLE {
      forall x | x in q ensures !EqualFold(u, x, key) { ExistingStaysApart(u, q, extra, done, now, key, x); }
    }
  }

  /** A default that was replaced is still there under its own name. */
  lemma ExistingStaysApart(u: Unicode, q: Query, extra: Values, done: set<string>, now: Query, key: string, x: string)
    requires AllFit(u, q, extra, done) && IsMerge(u, q, extra, done, now)
    requires !Clashes(u, now, key) && x in q
    ensures !EqualFold(u, x, key)
  {
    var keys := KeysOf(u, done);
    if x !in now {
      assert OVERRIDABLE in keys && EqualFold(u, x, OVERRIDABLE);
      assert OVERRIDABLE in now;
      assert !EqualFold(u, OVERRIDABLE, key);
    }
  }

  /** A clash with the query so far is one with the query as it was, or with
      another entry: whichever order the entries come in, the merge fails. */
  lemma ClashIsFinal(u: Unicode, q: Query, extra: Values, done: set<string>, now: Query, k: string)
    requires done <= extra.Keys && k in extra && k !in done
    requires AllFit(u, q, extra, done) && IsMerge(u, q, extra, done, now)
    requires KeyOf(u, k) != OVERRIDABLE && Clashes(u, now, KeyOf(u, k))
    ensures Clashes(u, q, KeyOf(u, k)) || exists j :: j in extra && j != k && !Apart(u, j, k)
  {
    var x :| x in now && EqualFold(u, x, KeyOf(u, k));
    if x in KeysOf(u, done) {
      var j :| j in done && KeyOf(u, j) == x;
      assert !Apart(u, j, k);
    }
  }

  /** Why an entry is refused. */
  ghost predicate Justified(u: Unicode, q: Query, extra: Values, why: Refusal) {
    && why.name in extra
    && var key := KeyOf(u, why.name);
       match why.reason
       case EmptyName => key == ""
       case Repeated => exists j :: j in extra && j != why.name && KeyOf(u, j) == key
       case NotOneValue => |extra[why.name]| != 1
       case Reserved =>
         || IsReserved(key)
         || (key != OVERRIDABLE &&
             (Clashes(u, q, key) || exists j :: j in extra && j != why.name && !Apart(u, j, why.name)))
  }

  lemma JustifiedMeansNot(u: Unicode, q: Query, extra: Values, why: Refusal)
    requires Justified(u, q, extra, why)
    ensures !Admissible(u, q, extra)
  {
    var k := why.name;
    if why.reason == Repeated {
      var j :| j in extra && j != k && KeyOf(u, j) == KeyOf(u, k);
      assert !Apart(u, j, k);
    }
  }

  /** The entry's own faults, in the order they are looked for. */
  method CheckEntry(key: string, values: seq<string>, seen: set<string>) returns (r: Option<Reason>)
    ensures r.None? <==> key != "" && !IsReserved(key) && key !in seen && |values| == 1
    ensures r == Some(EmptyName) ==> key == ""
    ensures r == Some(Reserved) ==> IsReserved(key)
    ensures r == Some(Repeated) ==> key in seen
    ensures r == Some(NotOneValue) ==> |values| != 1
  {
    if key == "" { return Some(EmptyName); }
    if IsReserved(key) { return Some(Reserved); }
    if key in seen { return Some(Repeated); }
    if |values| != 1 { return Some(NotOneValue); }
    return None;
  }

  lemma RepeatedIsJustified(u: Unicode, q: Query, extra: Values, done: set<string>, k: string)
    requires done <= extra.Keys && k in extra && k !in done && KeyOf(u, k) in KeysOf(u, done)
    ensures Justified(u, q, extra, Refusal(k, Repeated))
  {
    var j :| j in done && KeyOf(u, j) == KeyOf(u, k);
  }

  /** One turn of the loop. */
  method MergeEntry(u: Unicode, ghost q: Query, extra: Values, ghost done: set<string>, now: Query,
                    seen: set<string>, k: string)
    returns (r: Result<Query, Refusal>)
    requires OneSpelling(u, OVERRIDABLE)
    requires done <= extra.Keys && k in extra && k !in done
    requires AllFit(u, q, extra, done) && seen == KeysOf(u, done) && IsMerge(u, q, extra, done, now)
    ensures r.Ok? ==> AllFit(u, q, extra, done + {k}) && IsMerge(u, q, extra, done + {k}, r.value)
    ensures r.Err? ==> Justified(u, q, extra, r.error)
  {
    var key := KeyOf(u, k);
    var fault := CheckEntry(key, extra[k], seen);
    if fault.Some? {
      if fault.value == Repeated { RepeatedIsJustified(u, q, extra, done, k); }
      return Err(Refusal(k, fault.value));
    }
    var dropped := DropExisting(u, now, key);
    if dropped.None? {
      ClashIsFinal(u, q, extra, done, now, k);
      return Err(Refusal(k, Reserved));
    }
    MergeOne(u, q, extra, done, now, k);
    return Ok(dropped.value[key := extra[k][0]]);
  }

  /** The entries are taken in any order; success, and the query it leaves, are
      those of the entries alone. */
  method MergeExtraParams(u: Unicode, q: Query, extra: Values) returns (r: Result<Query, Refusal>)
    requires OneSpelling(u, OVERRIDABLE)
    ensures r.Ok? <==> Admissible(u, q, extra)
    ensures r.Ok? ==> IsMerge(u, q, extra, extra.Keys, r.value)
    ensures r.Err? ==> Justified(u, q, extra, r.error)
  {
    var todo, seen, now := extra.Keys, {}, q;
    ghost var done: set<string> := {};
    NothingMerged(u, q, extra);
    while todo != {}
      invariant todo <= extra.Keys && done == extra.Keys - todo
      invariant AllFit(u, q, extra, done) && seen == KeysOf(u, done)
      invariant IsMerge(u, q, extra, done, now)
      decreases todo
    {
      var k :| k in todo;
      var next := MergeEntry(u, q, extra, done, now, seen, k);
      if next.Err? {
        JustifiedMeansNot(u, q, extra, next.error);
        return next;
      }
      OneMoreDone(u, extra, todo, k);
      done := done + {k};
      seen, now, todo := seen + {KeyOf(u, k)}, next.value, todo - {k};
    }
    assert done == extra.Keys;
    return Ok(now);
  }

  lemma NothingMerged(u: Unicode, q: Query, extra: Values)
    ensures AllFit(u, q, extra, {}) && IsMerge(u, q, extra, {}, q)
    ensures KeysOf(u, {}) == {} && extra.Keys - extra.Keys == {}
  {
    assert Staying(u, q, {}) == q.Keys;
  }

  lemma OneMoreDone(u: Unicode, extra: Values, todo: set<string>, k: string)
    requires k in todo && todo <= extra.Keys
    ensures extra.Keys - (todo - {k}) == (extra.Keys - todo) + {k}
    ensures KeysOf(u, (extra.Keys - todo) + {k}) == KeysOf(u, extra.Keys - todo) + {KeyOf(u, k)}
  {
  }

  // ---- what a merge promises ----

  /** There is one merge: two runs that take the entries, and the query, in
      different orders end with the same query. */
  lemma MergeIsOne(u: Unicode, q: Query, extra: Values, a: Query, b: Query)
    requires Admissible(u, q, extra)
    requires IsMerge(u, q, extra, extra.Keys, a) && IsMerge(u, q, extra, extra.Keys, b)
    ensures a == b
  {
    var keys := KeysOf(u, extra.Keys);
    forall x | x in a ensures a[x] == b[x] {
      if x in keys {
        var k :| k in extra && KeyOf(u, k) == x;
        assert Carries(a, x, extra[k][0]) && Carries(b, x, extra[k][0]);
      }
    }
  }

  lemma FoldIsReflexive(u: Unicode, a: string)
    ensures EqualFold(u, a, a)
  {
  }

  /** Whatever the query set, but the overridable default, is still set and to
      the same value; and nothing a connection option controls is added. */
  lemma SettingsStay(u: Unicode, q: Query, extra: Values, r: Query)
    requires Admissible(u, q, extra) && IsMerge(u, q, extra, extra.Keys, r)
    ensures forall x :: x in q && !EqualFold(u, x, OVERRIDABLE) ==> Carries(r, x, q[x])
    ensures forall x :: x in r && x !in q ==> x != "" && !IsReserved(x)
    ensures forall x :: x in r && IsReserved(x) ==> Carries(q, x, r[x])
  {
    var keys := KeysOf(u, extra.Keys);
    forall x | x in keys ensures !IsReserved(x) && x != "" && (x in q ==> x == OVERRIDABLE) {
      var k :| k in extra && KeyOf(u, k) == x;
      assert Fits(u, q, KeyOf(u, k), extra[k]);
      FoldIsReflexive(u, x);
    }
    FoldIsReflexive(u, OVERRIDABLE);
  }

  lemma SynonymLength(word: string)
    ensures DriverKey(word) != word ==> |word| in {4, 16, 18, 20, 21, 25} && word[0] in "amfswc"
  {
  }

  lemma WrittenLength(key: string)
    requires IsWritten(key) && |key| in {4, 16, 18, 20, 21, 25}
    ensures IsKerberos(key) || key in {"connection timeout", "hostnameincertificate", "sendcertificatechain"}
  {
  }

  lemma WrittenIsItself(key: string)
    requires IsWritten(key)
    ensures DriverKey(key) == key
  {
    SynonymLength(key);
    if |key| in {4, 16, 18, 20, 21, 25} {
      WrittenLength(key);
      assert key != "application intent";
    }
  }

  /** After a merge a key the options write is there only if the query had it, with
      the query's value. */
  lemma OptionsKeepTheirKeys(u: Unicode, q: Query, extra: Values, r: Query, key: string)
    requires Admissible(u, q, extra) && IsMerge(u, q, extra, extra.Keys, r)
    requires IsWritten(key) && key in r
    ensures Carries(q, key, r[key])
  {
    WrittenIsReserved(key);
    SettingsStay(u, q, extra, r);
  }

  /** An entry that names one, in whatever case and between whatever spaces, fails
      the merge. */
  lemma OptionsAreNotTaken(u: Unicode, q: Query, extra: Values, name: string, key: string)
    requires KeepsAscii(u) && name in extra && IsSpelled(name, key) && IsWritten(key)
    ensures !Admissible(u, q, extra)
  {
    WrittenIsReserved(key);
    WrittenIsItself(key);
    KeysAreWords(u, name, key);
    assert !Fits(u, q, KeyOf(u, name), extra[name]);
  }

  lemma DialTimeoutIsOpen()
    ensures !IsReserved("dial timeout") && DriverKey("dial timeout") == "dial timeout"
  {
    assert "dial timeout"[0] == 'd';
  }

  lemma OneOverridableFits(u: Unicode, q: Query, name: string, value: string)
    requires KeyOf(u, name) == OVERRIDABLE
    ensures Admissible(u, q, map[name := [value]])
  {
    DialTimeoutIsOpen();
    assert Fits(u, q, OVERRIDABLE, [value]);
  }

  /** No other key of the query is this one to the driver. */
  ghost predicate OnlyOne(u: Unicode, q: Query, key: string) {
    forall x :: x in q && EqualFold(u, x, key) ==> x == key
  }

  lemma OneOverridableMerged(u: Unicode, q: Query, name: string, value: string, extra: Values, r: Query)
    requires KeyOf(u, name) == OVERRIDABLE && extra == map[name := [value]]
    requires Admissible(u, q, extra) && IsMerge(u, q, extra, extra.Keys, r)
    ensures Carries(r, OVERRIDABLE, value) && OnlyOne(u, r, OVERRIDABLE)
  {
    assert name in extra.Keys;
    assert KeysOf(u, extra.Keys) == {OVERRIDABLE};
  }

  /** The dial timeout alone may be set beside the options' own, and replaces it. */
  lemma DialTimeoutIsReplaced(u: Unicode, q: Query, name: string, value: string, r: Query)
    requires KeepsAscii(u) && IsSpelled(name, "dial timeout")
    ensures var extra := map[name := [value]];
      && Admissible(u, q, extra)
      && (IsMerge(u, q, extra, extra.Keys, r) ==> Carries(r, "dial timeout", value) && OnlyOne(u, r, "dial timeout"))
  {
    var extra := map[name := [value]];
    KeysAreWords(u, name, "dial timeout");
    DialTimeoutIsOpen();
    OneOverridableFits(u, q, name, value);
    if IsMerge(u, q, extra, extra.Keys, r) { OneOverridableMerged(u, q, name, value, extra, r); }
  }
}
