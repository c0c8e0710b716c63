/**
 The questions asked of a database's scanned permissions, and what the probe's
 rows said: a denial is reported for exactly the securable it was on.
 */
module Capabilities {
  import opened Wrappers
  import opened CapabilityKeys
  import opened CapabilityScan

  /** A nil receiver is None: nothing known. */
  datatype DatabaseCapabilities = DatabaseCapabilities(accessible: bool, maps: Dest)

  function ObjectPermission(c: Option<DatabaseCapabilities>, schema: string, table: string, perm: string): State {
    match c case None => Unknown case Some(d) => Read(d.maps, 'O', ObjectKey(schema, table), perm)
  }

  predicate DeniedOnObject(c: Option<DatabaseCapabilities>, schema: string, table: string, perm: string) {
    ObjectPermission(c, schema, table, perm) == Denied
  }

  predicate HasOnObject(c: Option<DatabaseCapabilities>, schema: string, table: string, perm: string) {
    ObjectPermission(c, schema, table, perm) == Granted
  }

  function ColumnPermission(c: Option<DatabaseCapabilities>, schema: string, table: string, column: string,
                            perm: string): State {
    match c case None => Unknown case Some(d) => Read(d.maps, 'C', ColumnKey(schema, table, column), perm)
  }

  predicate DeniedOnColumn(c: Option<DatabaseCapabilities>, schema: string, table: string, column: string,
                           perm: string) {
    ColumnPermission(c, schema, table, column, perm) == Denied
  }

  predicate DeniedOnSchema(c: Option<DatabaseCapabilities>, schema: string, perm: string) {
    match c case None => false case Some(d) => Read(d.maps, 'E', schema, perm) == Denied
  }

  predicate DeniedOnPrincipal(c: Option<DatabaseCapabilities>, principal: string, perm: string) {
    match c case None => false case Some(d) => Read(d.maps, 'N', principal, perm) == Denied
  }

  predicate DeniedOnDatabase(c: Option<DatabaseCapabilities>, perm: string) {
    match c case None => false case Some(d) => ReadFlat(d.maps.explicitDatabase, perm) == Denied
  }

  // ---- the probe ----

  /** What a row of the probe is about. */
  datatype Fact =
    | OnObject(schema: string, table: string)
    | OnColumn(ofSchema: string, ofTable: string, column: string)
    | OnSchema(name: string)
    | OnPrincipal(name: string)
    | OnDatabase

  datatype Probe = Probe(fact: Fact, perm: string, answer: Option<int>)

  predicate ValidFact(f: Fact) {
    match f
    case OnObject(schema, table) => IsName(schema) && IsName(table)
    case OnColumn(schema, table, column) => IsName(schema) && IsName(table) && IsName(column)
    case OnSchema(name) => IsName(name)
    case OnPrincipal(name) => IsName(name)
    case OnDatabase => true
  }

  function RowOf(p: Probe): Row {
    match p.fact
    case OnObject(schema, table) => Row("O:" + p.perm, ObjectKey(schema, table), p.answer)
    case OnColumn(schema, table, column) => Row("C:" + p.perm, ColumnKey(schema, table, column), p.answer)
    case OnSchema(name) => Row("E:" + p.perm, name, p.answer)
    case OnPrincipal(name) => Row("N:" + p.perm, name, p.answer)
    case OnDatabase => Row("D:" + p.perm, "db", p.answer)
  }

  function RowsOf(probes: seq<Probe>): (rows: seq<Row>)
    ensures |rows| == |probes|
    ensures forall i :: 0 <= i < |rows| ==> rows[i] == RowOf(probes[i])
  {
    seq(|probes|, i requires 0 <= i < |probes| => RowOf(probes[i]))
  }

  /** The maps a database's probe starts with. */
  function Unasked(): Dest {
    Dest(Some(map[]), Some(map[]), None, Some(map[]),
         map['S' := map[], 'E' := map[], 'N' := map[], 'O' := map[], 'C' := map[], 'K' := map[]])
  }

  /** The capabilities of a database that could be opened. */
  function Probed(probes: seq<Probe>): Option<DatabaseCapabilities> {
    Some(DatabaseCapabilities(true, Scan(Unasked(), RowsOf(probes))))
  }

  /** Some probe of this fact and permission answered, and not with 1. */
  ghost predicate ProbedDenied(probes: seq<Probe>, f: Fact, perm: string) {
    exists p :: p in probes && p.fact == f && p.perm == perm && p.answer.Some? && p.answer.value != 1
  }

  ghost predicate ProbedAtAll(probes: seq<Probe>, f: Fact, perm: string) {
    exists p :: p in probes && p.fact == f && p.perm == perm && p.answer.Some?
  }

  ghost predicate AllValid(probes: seq<Probe>) {
    forall p :: p in probes ==> ValidFact(p.fact)
  }

  /** SQL Server has no column without a name. */
  ghost predicate ColumnsNamed(probes: seq<Probe>) {
    forall p :: p in probes && p.fact.OnColumn? ==> p.fact.column != ""
  }

  function KeyOf(f: Fact): string {
    RowOf(Probe(f, "", None)).name
  }

  function TagOf(f: Fact): char {
    RowOf(Probe(f, "", None)).kind[0]
  }

  /** A row answers for a fact exactly when it is a probe of that fact. */
  lemma RowAnswersItsFact(p: Probe, f: Fact, perm: string)
    requires ValidFact(p.fact) && ValidFact(f) && !f.OnDatabase?
    ensures Answers(RowOf(p), TagOf(f), KeyOf(f), perm) <==> p.fact == f && p.perm == perm && p.answer.Some?
  {
    var r := RowOf(p);
    assert r.kind[2..] == p.perm;
    assert ([TagOf(f), ':'] + perm)[2..] == perm;
    assert r.kind == [r.kind[0], ':'] + p.perm;
    if r.kind[0] == TagOf(f) && r.name == KeyOf(f) {
      match f
      case OnObject(schema, table) => ObjectKeyIsInjective(p.fact.schema, p.fact.table, schema, table);
      case OnColumn(schema, table, column) =>
        ColumnKeyIsInjective(p.fact.ofSchema, p.fact.ofTable, p.fact.column, schema, table, column);
      case _ =>
    }
  }

  lemma AnswersAreProbes(probes: seq<Probe>, f: Fact, perm: string)
    requires AllValid(probes) && ValidFact(f) && !f.OnDatabase?
    ensures Answered(RowsOf(probes), TagOf(f), KeyOf(f), perm) <==> ProbedAtAll(probes, f, perm)
    ensures DeniedIn(RowsOf(probes), TagOf(f), KeyOf(f), perm) <==> ProbedDenied(probes, f, perm)
  {
    var rows := RowsOf(probes);
    forall p | p in probes
      ensures RowOf(p) in rows
      ensures Answers(RowOf(p), TagOf(f), KeyOf(f), perm) <==> p.fact == f && p.perm == perm && p.answer.Some?
    {
      var i :| 0 <= i < |probes| && probes[i] == p;
      assert rows[i] == RowOf(p);
      RowAnswersItsFact(p, f, perm);
    }
    forall r | r in rows ensures exists p :: p in probes && r == RowOf(p) {
      var i :| 0 <= i < |rows| && rows[i] == r;
      assert probes[i] in probes && r == RowOf(probes[i]);
    }
  }

  /** For names without NUL, the state read for an object, a column or a schema is
      what the probe said of exactly that one: denied if anything denied it,
      granted if only grants came, unknown if nothing did. */
  lemma StateIsWhatWasProbed(probes: seq<Probe>, f: Fact, perm: string)
    requires AllValid(probes) && ValidFact(f) && !f.OnDatabase?
    ensures Read(Probed(probes).value.maps, TagOf(f), KeyOf(f), perm) ==
            if ProbedDenied(probes, f, perm) then Denied
            else if ProbedAtAll(probes, f, perm) then Granted else Unknown
  {
    ExplicitReads(Unasked(), RowsOf(probes), TagOf(f), KeyOf(f), perm);
    AnswersAreProbes(probes, f, perm);
  }

  lemma ObjectAnswers(probes: seq<Probe>, schema: string, table: string, perm: string)
    requires AllValid(probes) && IsName(schema) && IsName(table)
    ensures DeniedOnObject(Probed(probes), schema, table, perm) <==> ProbedDenied(probes, OnObject(schema, table), perm)
    ensures HasOnObject(Probed(probes), schema, table, perm) <==>
              ProbedAtAll(probes, OnObject(schema, table), perm) && !ProbedDenied(probes, OnObject(schema, table), perm)
  {
    StateIsWhatWasProbed(probes, OnObject(schema, table), perm);
  }

  lemma ColumnAnswers(probes: seq<Probe>, schema: string, table: string, column: string, perm: string)
    requires AllValid(probes) && IsName(schema) && IsName(table) && IsName(column)
    ensures DeniedOnColumn(Probed(probes), schema, table, column, perm) <==>
              ProbedDenied(probes, OnColumn(schema, table, column), perm)
  {
    StateIsWhatWasProbed(probes, OnColumn(schema, table, column), perm);
  }

  lemma SchemaAnswers(probes: seq<Probe>, schema: string, perm: string)
    requires AllValid(probes) && IsName(schema)
    ensures DeniedOnSchema(Probed(probes), schema, perm) <==> ProbedDenied(probes, OnSchema(schema), perm)
  {
    StateIsWhatWasProbed(probes, OnSchema(schema), perm);
  }

  lemma PrincipalAnswers(probes: seq<Probe>, principal: string, perm: string)
    requires AllValid(probes) && IsName(principal)
    ensures DeniedOnPrincipal(Probed(probes), principal, perm) <==> ProbedDenied(probes, OnPrincipal(principal), perm)
  {
    StateIsWhatWasProbed(probes, OnPrincipal(principal), perm);
  }

  lemma RowAnswersDatabase(p: Probe, perm: string)
    ensures AnswersDatabase(RowOf(p), perm) <==> p.fact.OnDatabase? && p.perm == perm && p.answer.Some?
  {
    assert RowOf(p).kind[2..] == p.perm;
    assert ("D:" + perm)[2..] == perm;
  }

  lemma DatabaseRowsAreProbes(probes: seq<Probe>, perm: string)
    ensures DatabaseDenied(RowsOf(probes), perm) <==> ProbedDenied(probes, OnDatabase, perm)
  {
    var rows := RowsOf(probes);
    forall i | 0 <= i < |rows|
      ensures AnswersDatabase(rows[i], perm) <==>
              probes[i].fact.OnDatabase? && probes[i].perm == perm && probes[i].answer.Some?
    {
      RowAnswersDatabase(probes[i], perm);
    }
    if ProbedDenied(probes, OnDatabase, perm) {
      var p :| p in probes && p.fact == OnDatabase && p.perm == perm && p.answer.Some? && p.answer.value != 1;
      var i :| 0 <= i < |probes| && probes[i] == p;
      assert rows[i] in rows && Denies(rows[i]);
    }
  }

  lemma DatabaseAnswers(probes: seq<Probe>, perm: string)
    ensures DeniedOnDatabase(Probed(probes), perm) <==> ProbedDenied(probes, OnDatabase, perm)
  {
    DatabaseReads(Unasked(), RowsOf(probes), perm);
    DatabaseRowsAreProbes(probes, perm);
  }

  // ---- the least denied column ----

  /** Go's string order, byte by byte, which for UTF-8 is character by character. */
  predicate Before(a: string, b: string) {
    b != "" && (a == "" || a[0] < b[0] || (a[0] == b[0] && Before(a[1..], b[1..])))
  }

  lemma {:induction false} BeforeIsTotal(a: string, b: string)
    ensures a == b || Before(a, b) || Before(b, a)
    ensures !(Before(a, b) && Before(b, a)) && !(a == b && Before(a, b))
  {
    if a != "" && b != "" && a[0] == b[0] {
      BeforeIsTotal(a[1..], b[1..]);
      assert a == [a[0]] + a[1..] && b == [b[0]] + b[1..];
    }
  }

  lemma {:induction false} BeforeIsTransitive(a: string, b: string, c: string)
    requires Before(a, b) && Before(b, c)
    ensures Before(a, c)
  {
    if a != "" && a[0] == b[0] && b[0] == c[0] { BeforeIsTransitive(a[1..], b[1..], c[1..]); }
  }

  /** What the loop holds after the denied columns came in this order. */
  function Found(columns: seq<string>): string {
    if columns == [] then ""
    else
      var found, col := Found(columns[..|columns| - 1]), columns[|columns| - 1];
      if found == "" || Before(col, found) then col else found
  }

  ghost predicate IsLeast(col: string, columns: seq<string>) {
    col in columns && forall c :: c in columns ==> c == col || Before(col, c)
  }

  lemma LesserLeads(col: string, found: string, c: string)
    requires Before(col, found) && (c == found || Before(found, c))
    ensures Before(col, c)
  {
    if c != found { BeforeIsTransitive(col, found, c); }
  }

  lemma LeastSnoc(init: seq<string>, found: string, col: string)
    requires IsLeast(found, init)
    ensures IsLeast(if Before(col, found) then col else found, init + [col])
  {
    BeforeIsTotal(col, found);
    forall c | c in init && Before(col, found) ensures Before(col, c) { LesserLeads(col, found, c); }
  }

  lemma {:induction false} FoundIsLeast(columns: seq<string>)
    requires "" !in columns && columns != []
    ensures IsLeast(Found(columns), columns)
  {
    var init, col := columns[..|columns| - 1], columns[|columns| - 1];
    assert columns == init + [col];
    if init != [] {
      FoundIsLeast(init);
      LeastSnoc(init, Found(init), col);
    }
  }

  /** The answer is right for every order the map yields exactly when no denied
      column's name is empty: with one, some order ends on "" and reports no
      denial at all. */
  lemma FoundForEveryOrder(columns: seq<string>)
    requires columns != []
    ensures (forall order: seq<string> :: multiset(order) == multiset(columns) ==>
               IsLeast(Found(order), columns) && Found(order) != "")
            <==> "" !in columns
  {
    if "" !in columns {
      forall order: seq<string> | multiset(order) == multiset(columns)
        ensures IsLeast(Found(order), columns) && Found(order) != ""
      {
        assert forall c :: c in order <==> c in multiset(order);
        assert forall c :: c in columns <==> c in multiset(columns);
        assert columns[0] in order;
        FoundIsLeast(order);
      }
    } else {
      var i :| 0 <= i < |columns| && columns[i] == "";
      var order := columns[..i] + columns[i + 1..] + [""];
      assert columns == columns[..i] + [""] + columns[i + 1..];
      assert multiset(order) == multiset(columns);
      assert order[..|order| - 1] == columns[..i] + columns[i + 1..];
      assert Found(order) == "";
    }
  }

  predicate IsDeniedColumn(columns: States, schema: string, table: string, perm: string, column: string) {
    ReadStates(columns, ColumnKey(schema, table, column), perm) == Denied
  }

  /** The denied columns of one table, in the order the map yields its keys. */
  function DeniedColumns(columns: States, prefix: string, perm: string, keys: seq<string>): seq<string> {
    if keys == [] then []
    else
      var rest, key := DeniedColumns(columns, prefix, perm, keys[..|keys| - 1]), keys[|keys| - 1];
      if prefix <= key && ReadStates(columns, key, perm) == Denied then rest + [key[|prefix|..]] else rest
  }

  lemma {:induction false} DeniedColumnsAre(columns: States, prefix: string, perm: string, keys: seq<string>,
                                            col: string)
    ensures col in DeniedColumns(columns, prefix, perm, keys) <==>
              prefix + col in keys && ReadStates(columns, prefix + col, perm) == Denied
  {
    if keys != [] {
      var init, key := keys[..|keys| - 1], keys[|keys| - 1];
      DeniedColumnsAre(columns, prefix, perm, init, col);
      assert prefix + col in keys <==> prefix + col in init || prefix + col == key by { assert keys == init + [key]; }
      if prefix <= key { assert key == prefix + key[|prefix|..]; }
      assert (prefix + col)[|prefix|..] == col;
    }
  }

  function ColumnsOf(c: Option<DatabaseCapabilities>): States {
    if c.Some? && 'C' in c.value.maps.blocks then c.value.maps.blocks['C'] else map[]
  }

  /** The column is denied by a row of the probe for that very column. */
  ghost predicate ColumnDenied(probes: seq<Probe>, schema: string, table: string, perm: string, column: string) {
    ProbedDenied(probes, OnColumn(schema, table, column), perm)
  }

  /** The answer for a table: the least of its denied columns, or none if it has
      none. */
  ghost predicate IsAnswer(probes: seq<Probe>, schema: string, table: string, perm: string, found: string,
                           denied: bool) {
    && (denied <==> exists c :: ColumnDenied(probes, schema, table, perm, c))
    && (denied ==> ColumnDenied(probes, schema, table, perm, found))
    && (forall c :: ColumnDenied(probes, schema, table, perm, c) ==> c == found || Before(found, c))
  }

  /** The loop over the map, its keys in any order; a nil receiver has none. What
      it says of any map is that the column found is a denied one, the least if
      no name is empty; of a probe's maps, that the probe said so. */
  method DeniedOnAnyColumn(c: Option<DatabaseCapabilities>, schema: string, table: string, perm: string,
                           keys: seq<string>)
    returns (found: string, denied: bool)
    requires forall k :: k in keys <==> k in ColumnsOf(c)
    ensures denied ==> IsDeniedColumn(ColumnsOf(c), schema, table, perm, found)
    ensures !IsDeniedColumn(ColumnsOf(c), schema, table, perm, "") ==>
      && (denied <==> exists col :: IsDeniedColumn(ColumnsOf(c), schema, table, perm, col))
      && (forall col :: IsDeniedColumn(ColumnsOf(c), schema, table, perm, col) ==> col == found || Before(found, col))
    ensures forall probes: seq<Probe> {:trigger Probed(probes)} ::
      c == Probed(probes) && AllValid(probes) && ColumnsNamed(probes) && IsName(schema) && IsName(table) ==>
        IsAnswer(probes, schema, table, perm, found, denied)
  {
    var columns := ColumnsOf(c);
    var prefix := ObjectKey(schema, table) + [KEY_SEPARATOR];
    found := "";
    for i := 0 to |keys|
      invariant found == Found(DeniedColumns(columns, prefix, perm, keys[..i]))
    {
      var key := keys[i];
      assert keys[..i + 1][..i] == keys[..i];
      if !(prefix <= key) || ReadStates(columns, key, perm) != Denied { continue; }
      var col := key[|prefix|..];
      ghost var before := DeniedColumns(columns, prefix, perm, keys[..i]);
      assert (before + [col])[..|before|] == before;
      if found == "" || Before(col, found) { found := col; }
    }
    denied := found != "";
    assert keys[..|keys|] == keys;
    FoundIsDenied(columns, schema, table, perm, keys);
    if !IsDeniedColumn(columns, schema, table, perm, "") { LeastOfTable(columns, schema, table, perm, keys); }
    forall probes: seq<Probe> |
      c == Probed(probes) && AllValid(probes) && ColumnsNamed(probes) && IsName(schema) && IsName(table)
      ensures IsAnswer(probes, schema, table, perm, found, denied)
    {
      ProbedIsAnswered(probes, schema, table, perm, keys);
    }
  }

  /** Every key of the column map is that of a column some row named. */
  lemma ColumnOfKey(probes: seq<Probe>, key: string) returns (p: Probe)
    requires key in ColumnsOf(Probed(probes))
    ensures p in probes && p.fact.OnColumn? && KeyOf(p.fact) == key
  {
    var rows := RowsOf(probes);
    KeysComeFromRows(Unasked(), rows, 'C', key);
    var r :| r in rows && Tagged(r.kind, 'C') && r.name == key;
    var i :| 0 <= i < |rows| && rows[i] == r;
    p := probes[i];
  }

  /** A denied key under a table's prefix is a column of that table which the
      probe denied, and the other way about. */
  lemma DeniedKeyIsProbed(probes: seq<Probe>, schema: string, table: string, perm: string, c: string)
    requires AllValid(probes) && IsName(schema) && IsName(table)
    ensures IsDeniedColumn(ColumnsOf(Probed(probes)), schema, table, perm, c)
            <==> ColumnDenied(probes, schema, table, perm, c)
  {
    var columns := ColumnsOf(Probed(probes));
    if IsDeniedColumn(columns, schema, table, perm, c) {
      var p := ColumnOfKey(probes, ColumnKey(schema, table, c));
      var prefix := ObjectKey(schema, table) + [KEY_SEPARATOR];
      ColumnKeyNests(schema, table, c);
      PrefixIsObject(schema, table, p.fact.ofSchema, p.fact.ofTable, p.fact.column);
      ColumnKeyNests(schema, table, p.fact.column);
      assert c == (prefix + c)[|prefix|..] == (prefix + p.fact.column)[|prefix|..] == p.fact.column;
      ColumnAnswers(probes, schema, table, c, perm);
    }
    if ColumnDenied(probes, schema, table, perm, c) {
      var p :| p in probes && p.fact == OnColumn(schema, table, c);
      assert ValidFact(p.fact);
      ColumnAnswers(probes, schema, table, c, perm);
    }
  }

  lemma ProbedIsAnswered(probes: seq<Probe>, schema: string, table: string, perm: string, keys: seq<string>)
    requires AllValid(probes) && ColumnsNamed(probes) && IsName(schema) && IsName(table)
    requires forall k :: k in keys <==> k in ColumnsOf(Probed(probes))
    ensures var prefix := ObjectKey(schema, table) + [KEY_SEPARATOR];
            var found := Found(DeniedColumns(ColumnsOf(Probed(probes)), prefix, perm, keys));
            IsAnswer(probes, schema, table, perm, found, found != "")
  {
    var columns := ColumnsOf(Probed(probes));
    forall c
      ensures IsDeniedColumn(columns, schema, table, perm, c) <==> ColumnDenied(probes, schema, table, perm, c)
    {
      DeniedKeyIsProbed(probes, schema, table, perm, c);
    }
    DeniedKeyIsProbed(probes, schema, table, perm, "");
    LeastOfTable(columns, schema, table, perm, keys);
  }

  lemma {:induction false} FoundIsThere(columns: seq<string>)
    ensures Found(columns) == "" || Found(columns) in columns
  {
    if columns != [] {
      FoundIsThere(columns[..|columns| - 1]);
      assert columns == columns[..|columns| - 1] + [columns[|columns| - 1]];
    }
  }

  lemma DeniedInTable(columns: States, schema: string, table: string, perm: string, keys: seq<string>, c: string)
    requires forall k :: k in keys <==> k in columns
    ensures c in DeniedColumns(columns, ObjectKey(schema, table) + [KEY_SEPARATOR], perm, keys)
            <==> IsDeniedColumn(columns, schema, table, perm, c)
  {
    ColumnKeyNests(schema, table, c);
    DeniedColumnsAre(columns, ObjectKey(schema, table) + [KEY_SEPARATOR], perm, keys, c);
  }

  lemma FoundIsDenied(columns: States, schema: string, table: string, perm: string, keys: seq<string>)
    requires forall k :: k in keys <==> k in columns
    ensures var found := Found(DeniedColumns(columns, ObjectKey(schema, table) + [KEY_SEPARATOR], perm, keys));
            found != "" ==> IsDeniedColumn(columns, schema, table, perm, found)
  {
    var cols := DeniedColumns(columns, ObjectKey(schema, table) + [KEY_SEPARATOR], perm, keys);
    FoundIsThere(cols);
    DeniedInTable(columns, schema, table, perm, keys, Found(cols));
  }

  lemma LeastOfTable(columns: States, schema: string, table: string, perm: string, keys: seq<string>)
    requires forall k :: k in keys <==> k in columns
    requires !IsDeniedColumn(columns, schema, table, perm, "")
    ensures var found := Found(DeniedColumns(columns, ObjectKey(schema, table) + [KEY_SEPARATOR], perm, keys));
      && (found != "" <==> exists c :: IsDeniedColumn(columns, schema, table, perm, c))
      && (found != "" ==> IsDeniedColumn(columns, schema, table, perm, found))
      && (forall c :: IsDeniedColumn(columns, schema, table, perm, c) ==> c == found || Before(found, c))
  {
    var prefix := ObjectKey(schema, table) + [KEY_SEPARATOR];
    var cols := DeniedColumns(columns, prefix, perm, keys);
    forall c ensures c in cols <==> IsDeniedColumn(columns, schema, table, perm, c) {
      DeniedInTable(columns, schema, table, perm, keys, c);
    }
    if cols != [] {
      FoundIsLeast(cols);
    }
    forall c | IsDeniedColumn(columns, schema, table, perm, c) ensures cols != [] { assert c in cols; }
  }
}
