/** The keys the permission maps are indexed by. */
module CapabilityKeys {
  import opened Text

  /** NUL, which SQL Server refuses in an identifier. */
  const KEY_SEPARATOR: char := '\0'

  predicate IsName(s: string) {
    KEY_SEPARATOR !in s
  }

  function ObjectKey(schema: string, table: string): string {
    schema + [KEY_SEPARATOR] + table
  }

  function ColumnKey(schema: string, table: string, column: string): string {
    schema + [KEY_SEPARATOR] + table + [KEY_SEPARATOR] + column
  }

  datatype SecurableKind =
    | Assembly | UserType | XmlSchemaCollection | SymmetricKey | Certificate | AsymmetricKey
    | FullTextCatalog | FullTextStoplist | SearchPropertyList

  function KindText(k: SecurableKind): string {
    match k
    case Assembly => "ASSEMBLY"
    case UserType => "TYPE"
    case XmlSchemaCollection => "XML SCHEMA COLLECTION"
    case SymmetricKey => "SYMMETRIC KEY"
    case Certificate => "CERTIFICATE"
    case AsymmetricKey => "ASYMMETRIC KEY"
    case FullTextCatalog => "FULLTEXT CATALOG"
    case FullTextStoplist => "FULLTEXT STOPLIST"
    case SearchPropertyList => "SEARCH PROPERTY LIST"
  }

  /** What a securable key says after its kind; a schemaless securable has the
      schema "". */
  function Qualified(schema: string, name: string): string {
    if schema == "" then name else schema + [KEY_SEPARATOR] + name
  }

  function DatabaseSecurableKey(k: SecurableKind, schema: string, name: string): string {
    KindText(k) + "::" + Qualified(schema, name)
  }

  datatype ServerKind = Login | ServerRole | Endpoint

  function ServerKindText(k: ServerKind): string {
    match k case Login => "LOGIN" case ServerRole => "SERVER ROLE" case Endpoint => "ENDPOINT"
  }

  function ServerSecurableKey(k: ServerKind, name: string): string {
    ServerKindText(k) + "::" + name
  }

  // ---- no two securables share a key ----

  lemma ObjectKeyIsInjective(s1: string, o1: string, s2: string, o2: string)
    requires IsName(s1) && IsName(s2)
    requires ObjectKey(s1, o1) == ObjectKey(s2, o2)
    ensures s1 == s2 && o1 == o2
  {
    CutsOnce(s1, s2, o1, o2, KEY_SEPARATOR);
  }

  lemma ColumnKeyNests(schema: string, table: string, column: string)
    ensures ColumnKey(schema, table, column) == schema + [KEY_SEPARATOR] + (table + [KEY_SEPARATOR] + column)
    ensures ColumnKey(schema, table, column) == ObjectKey(schema, table) + [KEY_SEPARATOR] + column
  {
  }

  lemma ColumnKeyIsInjective(s1: string, o1: string, c1: string, s2: string, o2: string, c2: string)
    requires IsName(s1) && IsName(s2) && IsName(o1) && IsName(o2)
    requires ColumnKey(s1, o1, c1) == ColumnKey(s2, o2, c2)
    ensures s1 == s2 && o1 == o2 && c1 == c2
  {
    ColumnKeyNests(s1, o1, c1);
    ColumnKeyNests(s2, o2, c2);
    CutsOnce(s1, s2, o1 + [KEY_SEPARATOR] + c1, o2 + [KEY_SEPARATOR] + c2, KEY_SEPARATOR);
    CutsOnce(o1, o2, c1, c2, KEY_SEPARATOR);
  }

  /** An object's keys as a prefix: exactly its own columns have it. */
  lemma PrefixIsObject(schema: string, table: string, s2: string, o2: string, c2: string)
    requires IsName(schema) && IsName(table) && IsName(s2) && IsName(o2)
    ensures ObjectKey(schema, table) + [KEY_SEPARATOR] <= ColumnKey(s2, o2, c2) <==>
            s2 == schema && o2 == table
  {
    ColumnKeyNests(schema, table, c2);
    if ObjectKey(schema, table) + [KEY_SEPARATOR] <= ColumnKey(s2, o2, c2) {
      var prefix := ObjectKey(schema, table) + [KEY_SEPARATOR];
      var rest := ColumnKey(s2, o2, c2)[|prefix|..];
      assert ColumnKey(s2, o2, c2) == prefix + rest == ColumnKey(schema, table, rest);
      ColumnKeyIsInjective(schema, table, rest, s2, o2, c2);
    }
  }

  lemma KindsHaveNoColon(k: SecurableKind, m: SecurableKind)
    ensures ':' !in KindText(k)
    ensures KindText(k) == KindText(m) ==> k == m
  {
  }

  lemma QualifiedIsInjective(s1: string, n1: string, s2: string, n2: string)
    requires IsName(s1) && IsName(s2) && IsName(n1) && IsName(n2)
    requires Qualified(s1, n1) == Qualified(s2, n2)
    ensures s1 == s2 && n1 == n2
  {
    HasSeparatorIff(s1, n1);
    HasSeparatorIff(s2, n2);
    if s1 != "" {
      CutsOnce(s1, s2, n1, n2, KEY_SEPARATOR);
    }
  }

  lemma HasSeparatorIff(schema: string, name: string)
    requires IsName(name)
    ensures KEY_SEPARATOR in Qualified(schema, name) <==> schema != ""
  {
    if schema != "" { assert Qualified(schema, name)[|schema|] == KEY_SEPARATOR; }
  }

  /** Text after a kind and its colons. */
  lemma KindCutsOff(k: string, m: string, a: string, b: string)
    requires ':' !in k && ':' !in m && k + "::" + a == m + "::" + b
    ensures k == m && a == b
  {
    assert k + "::" + a == k + [':'] + ([':'] + a);
    assert m + "::" + b == m + [':'] + ([':'] + b);
    CutsOnce(k, m, [':'] + a, [':'] + b, ':');
    assert a == ([':'] + a)[1..] && b == ([':'] + b)[1..];
  }

  /** Kind, schema and name are all in the key: a type and a collection of one
      name, or a schemaless securable and a schema's, never meet. */
  lemma SecurableKeyIsInjective(k: SecurableKind, s1: string, n1: string, m: SecurableKind, s2: string, n2: string)
    requires IsName(s1) && IsName(s2) && IsName(n1) && IsName(n2)
    requires DatabaseSecurableKey(k, s1, n1) == DatabaseSecurableKey(m, s2, n2)
    ensures k == m && s1 == s2 && n1 == n2
  {
    KindsHaveNoColon(k, m);
    KindsHaveNoColon(m, k);
    KindCutsOff(KindText(k), KindText(m), Qualified(s1, n1), Qualified(s2, n2));
    QualifiedIsInjective(s1, n1, s2, n2);
  }

  lemma ServerKeyIsInjective(k: ServerKind, n1: string, m: ServerKind, n2: string)
    requires ServerSecurableKey(k, n1) == ServerSecurableKey(m, n2)
    ensures k == m && n1 == n2
  {
    KindCutsOff(ServerKindText(k), ServerKindText(m), n1, n2);
  }
}
