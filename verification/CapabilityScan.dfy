/**
 Reading the permission probe: one (kind, name, answer) row after another into
 the maps the capability questions are answered from.
 */
module CapabilityScan {
  import opened Wrappers

  datatype State = Unknown | Granted | Denied

  /** NULL is None. */
  datatype Row = Row(kind: string, name: string, answer: Option<int>)

  /** securable -> permission -> state. */
  type States = map<string, map<string, State>>

  /** The maps to fill. A probe that does not ask for a block leaves its map nil:
      None, or no entry for the block's tag. */
  datatype Dest = Dest(
    roles: Option<map<string, bool>>,
    perms: Option<map<string, State>>,
    master: Option<map<string, State>>,
    explicitDatabase: Option<map<string, State>>,
    blocks: map<char, States>)

  /** The blocks read from the catalog, where a securable can have several rows:
      schemas, principals, server securables, objects, columns. */
  const EXPLICIT_TAGS: set<char> := {'E', 'N', 'V', 'O', 'C'}

  /** The blocks answered once per securable: schemas, availability groups,
      database securables. */
  const MEASURED_TAGS: set<char> := {'S', 'G', 'K'}

  /** A NULL answer is no state at all. */
  function StateOf(answer: Option<int>): Option<State> {
    match answer case None => None case Some(n) => Some(if n == 1 then Granted else Denied)
  }

  predicate Tagged(kind: string, tag: char) {
    |kind| >= 2 && kind[0] == tag && kind[1] == ':'
  }

  // ---- one row ----

  function ReadFlat(m: Option<map<string, State>>, perm: string): State {
    if m.Some? && perm in m.value then m.value[perm] else Unknown
  }

  function ReadStates(s: States, key: string, perm: string): State {
    if key in s && perm in s[key] then s[key][perm] else Unknown
  }

  /** An entry written over whatever was there. */
  function Put(s: States, key: string, perm: string, st: State): States {
    s[key := (if key in s then s[key] else map[])[perm := st]]
  }

  /** recordSecurableState: a denial stays, whatever comes after it. */
  function Record(s: States, key: string, perm: string, st: State): States {
    if ReadStates(s, key, perm) == Denied then s else Put(s, key, perm, st)
  }

  function PutFlat(m: Option<map<string, State>>, perm: string, st: State): Option<map<string, State>> {
    match m case None => None case Some(f) => Some(f[perm := st])
  }

  function RecordFlat(m: Option<map<string, State>>, perm: string, st: State): Option<map<string, State>> {
    if ReadFlat(m, perm) == Denied then m else PutFlat(m, perm, st)
  }

  function ScanRow(d: Dest, r: Row): Dest {
    var st := StateOf(r.answer);
    if r.kind == "R" then
      (match d.roles case None => d case Some(m) => d.(roles := Some(m[r.name := r.answer == Some(1)])))
    else if st.None? then d
    else if r.kind == "P" then d.(perms := PutFlat(d.perms, r.name, st.value))
    else if r.kind == "M" then d.(master := PutFlat(d.master, r.name, st.value))
    else if |r.kind| < 2 || r.kind[1] != ':' then d
    else
      var tag, perm := r.kind[0], r.kind[2..];
      if tag == 'D' then d.(explicitDatabase := RecordFlat(d.explicitDatabase, perm, st.value))
      else if tag !in d.blocks then d
      else if tag in EXPLICIT_TAGS then d.(blocks := d.blocks[tag := Record(d.blocks[tag], r.name, perm, st.value)])
      else if tag in MEASURED_TAGS then d.(blocks := d.blocks[tag := Put(d.blocks[tag], r.name, perm, st.value)])
      else d
  }

  function Scan(d: Dest, rows: seq<Row>): Dest {
    if rows == [] then d else ScanRow(Scan(d, rows[..|rows| - 1]), rows[|rows| - 1])
  }

  // ---- what the maps then say ----

  function Read(d: Dest, tag: char, key: string, perm: string): State {
    if tag in d.blocks then ReadStates(d.blocks[tag], key, perm) else Unknown
  }

  /** The row answers for exactly this securable and permission, and is no NULL. */
  predicate Answers(r: Row, tag: char, key: string, perm: string) {
    r.kind == [tag, ':'] + perm && r.name == key && r.answer.Some?
  }

  /** A row of the database block answers for a permission, whatever its name. */
  predicate AnswersDatabase(r: Row, perm: string) {
    r.kind == "D:" + perm && r.answer.Some?
  }

  predicate Denies(r: Row) {
    r.answer.Some? && r.answer.value != 1
  }

  /** Denied if something denies, else granted if anything answers, else as
      before. */
  function Verdict(before: State, answered: bool, denied: bool): State {
    if before == Denied || denied then Denied else if answered then Granted else before
  }

  ghost predicate Answered(rows: seq<Row>, tag: char, key: string, perm: string) {
    exists r :: r in rows && Answers(r, tag, key, perm)
  }

  ghost predicate DeniedIn(rows: seq<Row>, tag: char, key: string, perm: string) {
    exists r :: r in rows && Answers(r, tag, key, perm) && Denies(r)
  }

  lemma RowIsRead(d: Dest, r: Row, tag: char, key: string, perm: string)
    requires tag in EXPLICIT_TAGS && tag in d.blocks
    ensures tag in ScanRow(d, r).blocks
    ensures Read(ScanRow(d, r), tag, key, perm) ==
            Verdict(Read(d, tag, key, perm), Answers(r, tag, key, perm), Answers(r, tag, key, perm) && Denies(r))
  {
    if r.kind == [tag, ':'] + perm {
      assert r.kind[2..] == perm;
    } else if |r.kind| >= 2 && r.kind[0] == tag && r.kind[1] == ':' {
      assert r.kind == [tag, ':'] + r.kind[2..];
    }
  }

  /** An explicit permission reads denied exactly when some row for that
      securable and permission is neither NULL nor 1, granted when there are rows
      and none denies, and as before when there are none. */
  lemma {:induction false} ExplicitReads(d: Dest, rows: seq<Row>, tag: char, key: string, perm: string)
    requires tag in {'E', 'N', 'V', 'O', 'C'} && tag in d.blocks
    ensures tag in Scan(d, rows).blocks
    ensures Read(Scan(d, rows), tag, key, perm) ==
            Verdict(Read(d, tag, key, perm), Answered(rows, tag, key, perm), DeniedIn(rows, tag, key, perm))
  {
    if rows != [] {
      var init, last := rows[..|rows| - 1], rows[|rows| - 1];
      ExplicitReads(d, init, tag, key, perm);
      RowIsRead(Scan(d, init), last, tag, key, perm);
      InLast(rows, tag, key, perm);
    }
  }

  lemma InLast(rows: seq<Row>, tag: char, key: string, perm: string)
    requires rows != []
    ensures var init, last := rows[..|rows| - 1], rows[|rows| - 1];
      && (Answered(rows, tag, key, perm) <==> Answered(init, tag, key, perm) || Answers(last, tag, key, perm))
      && (DeniedIn(rows, tag, key, perm) <==>
            DeniedIn(init, tag, key, perm) || (Answers(last, tag, key, perm) && Denies(last)))
  {
    var init, last := rows[..|rows| - 1], rows[|rows| - 1];
    assert rows == init + [last];
    assert forall r :: r in rows <==> r in init || r == last;
  }

  /** Rows that answer explicit questions. */
  predicate IsExplicit(r: Row) {
    |r.kind| >= 2 && r.kind[1] == ':' && r.kind[0] in EXPLICIT_TAGS && r.answer.Some?
  }

  /** Only which explicit rows there are matters: not their order, nor how often
      each comes, nor any NULL row, nor the rows of other blocks between them. */
  lemma ScanIgnoresOrder(d: Dest, a: seq<Row>, b: seq<Row>, tag: char, key: string, perm: string)
    requires tag in {'E', 'N', 'V', 'O', 'C'} && tag in d.blocks
    requires forall r :: IsExplicit(r) ==> (r in a <==> r in b)
    ensures Read(Scan(d, a), tag, key, perm) == Read(Scan(d, b), tag, key, perm)
  {
    ExplicitReads(d, a, tag, key, perm);
    ExplicitReads(d, b, tag, key, perm);
    forall r | Answers(r, tag, key, perm) ensures r in a <==> r in b {
      assert IsExplicit(r);
    }
  }

  /** A block the probe did not ask for stays nil. */
  lemma {:induction false} NilStaysNil(d: Dest, rows: seq<Row>, tag: char)
    requires tag !in d.blocks
    ensures tag !in Scan(d, rows).blocks
  {
    if rows != [] { NilStaysNil(d, rows[..|rows| - 1], tag); }
  }

  ghost predicate NamedIn(rows: seq<Row>, tag: char, key: string) {
    exists r :: r in rows && Tagged(r.kind, tag) && r.name == key
  }

  /** Every securable of a block is one some row of the block named. */
  lemma {:induction false} KeysComeFromRows(d: Dest, rows: seq<Row>, tag: char, key: string)
    requires tag in d.blocks && key !in d.blocks[tag]
    ensures tag in Scan(d, rows).blocks
    ensures key in Scan(d, rows).blocks[tag] ==> NamedIn(rows, tag, key)
  {
    if rows != [] {
      var init, last := rows[..|rows| - 1], rows[|rows| - 1];
      KeysComeFromRows(d, init, tag, key);
      assert rows == init + [last];
      assert NamedIn(init, tag, key) ==> NamedIn(rows, tag, key);
      assert Tagged(last.kind, tag) && last.name == key ==> NamedIn(rows, tag, key);
    }
  }

  // ---- the database block ----

  ghost predicate DatabaseAnswered(rows: seq<Row>, perm: string) {
    exists r :: r in rows && AnswersDatabase(r, perm)
  }

  ghost predicate DatabaseDenied(rows: seq<Row>, perm: string) {
    exists r :: r in rows && AnswersDatabase(r, perm) && Denies(r)
  }

  lemma DatabaseRowIsRead(d: Dest, r: Row, perm: string)
    requires d.explicitDatabase.Some?
    ensures ScanRow(d, r).explicitDatabase.Some?
    ensures ReadFlat(ScanRow(d, r).explicitDatabase, perm) ==
            Verdict(ReadFlat(d.explicitDatabase, perm), AnswersDatabase(r, perm), AnswersDatabase(r, perm) && Denies(r))
  {
    if r.kind == "D:" + perm {
      assert r.kind[2..] == perm;
    } else if |r.kind| >= 2 && r.kind[0] == 'D' && r.kind[1] == ':' {
      assert r.kind == "D:" + r.kind[2..];
    }
  }

  /** The same for the permissions denied on the database, whose rows carry the
      database's name and answer whatever it is. */
  lemma {:induction false} DatabaseReads(d: Dest, rows: seq<Row>, perm: string)
    requires d.explicitDatabase.Some?
    ensures Scan(d, rows).explicitDatabase.Some?
    ensures ReadFlat(Scan(d, rows).explicitDatabase, perm) ==
            Verdict(ReadFlat(d.explicitDatabase, perm), DatabaseAnswered(rows, perm), DatabaseDenied(rows, perm))
  {
    if rows != [] {
      var init, last := rows[..|rows| - 1], rows[|rows| - 1];
      DatabaseReads(d, init, perm);
      DatabaseRowIsRead(Scan(d, init), last, perm);
      assert forall r :: r in rows <==> r in init || r == last by { assert rows == init + [last]; }
    }
  }

  // ---- roles, and the permissions measured on the whole ----

  /** A row that answers in one of the three blocks that have no securable. */
  predicate Names(r: Row, kind: string, name: string) {
    r.kind == kind && r.name == name
  }

  /** The last row of a block that names something, NULL ones among them or not. */
  function LastNamed(rows: seq<Row>, kind: string, name: string, nulls: bool): (r: Option<Row>)
    ensures r.Some? ==> r.value in rows && Names(r.value, kind, name) && (nulls || r.value.answer.Some?)
    ensures r.None? ==> forall x :: x in rows && Names(x, kind, name) ==> !nulls && x.answer.None?
  {
    if rows == [] then None
    else
      var init, last := rows[..|rows| - 1], rows[|rows| - 1];
      assert rows == init + [last];
      if Names(last, kind, name) && (nulls || last.answer.Some?) then Some(last)
      else LastNamed(init, kind, name, nulls)
  }

  /** A role is a membership exactly if the last row that names it answers 1, NULL
      and every other number being none; a role no row names is as it was. */
  lemma {:induction false} RolesRead(d: Dest, rows: seq<Row>, name: string)
    requires d.roles.Some?
    ensures var roles := Scan(d, rows).roles;
      && roles.Some?
      && match LastNamed(rows, "R", name, true)
         case None => name in roles.value <==> name in d.roles.value
         case Some(r) => name in roles.value && (roles.value[name] <==> r.answer == Some(1))
    ensures LastNamed(rows, "R", name, true).None? && name in d.roles.value ==>
              Scan(d, rows).roles.value[name] == d.roles.value[name]
  {
    if rows != [] { RolesRead(d, rows[..|rows| - 1], name); }
  }

  /** A permission on the whole reads as the last row that answers for it says,
      granted if that is 1 and else denied; NULL rows say nothing. */
  lemma {:induction false} PermissionsRead(d: Dest, rows: seq<Row>, name: string)
    requires d.perms.Some?
    ensures Scan(d, rows).perms.Some?
    ensures ReadFlat(Scan(d, rows).perms, name) ==
      match LastNamed(rows, "P", name, false)
      case None => ReadFlat(d.perms, name)
      case Some(r) => if r.answer == Some(1) then Granted else Denied
  {
    if rows != [] { PermissionsRead(d, rows[..|rows| - 1], name); }
  }

  /** The same for the block on master. */
  lemma {:induction false} MasterReads(d: Dest, rows: seq<Row>, name: string)
    requires d.master.Some?
    ensures Scan(d, rows).master.Some?
    ensures ReadFlat(Scan(d, rows).master, name) ==
      match LastNamed(rows, "M", name, false)
      case None => ReadFlat(d.master, name)
      case Some(r) => if r.answer == Some(1) then Granted else Denied
  {
    if rows != [] { MasterReads(d, rows[..|rows| - 1], name); }
  }

  /** The maps a probe did not ask for stay nil. */
  lemma {:induction false} UnaskedStayNil(d: Dest, rows: seq<Row>)
    ensures Scan(d, rows).roles.None? <==> d.roles.None?
    ensures Scan(d, rows).perms.None? <==> d.perms.None?
    ensures Scan(d, rows).master.None? <==> d.master.None?
    ensures Scan(d, rows).explicitDatabase.None? <==> d.explicitDatabase.None?
    ensures Scan(d, rows).blocks.Keys == d.blocks.Keys
  {
    if rows != [] { UnaskedStayNil(d, rows[..|rows| - 1]); }
  }

  // ---- the measured blocks ----

  lemma MeasuredRowIsRead(d: Dest, r: Row, tag: char, key: string, perm: string)
    requires tag in MEASURED_TAGS && tag in d.blocks
    ensures tag in ScanRow(d, r).blocks
    ensures Read(ScanRow(d, r), tag, key, perm) ==
            if Answers(r, tag, key, perm) then StateOf(r.answer).value else Read(d, tag, key, perm)
  {
    if r.kind == [tag, ':'] + perm {
      assert r.kind[2..] == perm;
    } else if |r.kind| >= 2 && r.kind[0] == tag && r.kind[1] == ':' {
      assert r.kind == [tag, ':'] + r.kind[2..];
    }
  }

  /** The last row that answers, if one does. */
  function LastAnswer(rows: seq<Row>, tag: char, key: string, perm: string): Option<Row> {
    if rows == [] then None
    else if Answers(rows[|rows| - 1], tag, key, perm) then Some(rows[|rows| - 1])
    else LastAnswer(rows[..|rows| - 1], tag, key, perm)
  }

  /** A measured block reads back the last row for the securable and permission
      that is no NULL, and what it read before if there is none. */
  lemma {:induction false} MeasuredReads(d: Dest, rows: seq<Row>, tag: char, key: string, perm: string)
    requires tag in {'S', 'G', 'K'} && tag in d.blocks
    ensures tag in Scan(d, rows).blocks
    ensures Read(Scan(d, rows), tag, key, perm) ==
      match LastAnswer(rows, tag, key, perm)
      case None => Read(d, tag, key, perm)
      case Some(r) => if r.answer == Some(1) then Granted else Denied
  {
    if rows != [] {
      var init := rows[..|rows| - 1];
      MeasuredReads(d, init, tag, key, perm);
      MeasuredRowIsRead(Scan(d, init), rows[|rows| - 1], tag, key, perm);
      LastAnswerAnswers(init, tag, key, perm);
    }
  }

  lemma {:induction false} LastAnswerAnswers(rows: seq<Row>, tag: char, key: string, perm: string)
    ensures match LastAnswer(rows, tag, key, perm)
            case None => !Answered(rows, tag, key, perm)
            case Some(r) => r in rows && Answers(r, tag, key, perm)
  {
    if rows != [] {
      LastAnswerAnswers(rows[..|rows| - 1], tag, key, perm);
      InLast(rows, tag, key, perm);
    }
  }

  // ---- the scanner ----

  /** The maps a probe fills in place. */
  class CapabilityMaps {
    var roles: Option<map<string, bool>>
    var perms: Option<map<string, State>>
    var master: Option<map<string, State>>
    var explicitDatabase: Option<map<string, State>>
    var blocks: map<char, States>

    function Contents(): Dest
      reads this
    {
      Dest(roles, perms, master, explicitDatabase, blocks)
    }

    constructor (d: Dest)
      ensures Contents() == d
    {
      roles, perms, master, explicitDatabase, blocks := d.roles, d.perms, d.master, d.explicitDatabase, d.blocks;
    }

    method RecordState(tag: char, key: string, perm: string, st: State)
      requires tag in blocks
      modifies this`blocks
      ensures blocks == old(blocks)[tag := Record(old(blocks)[tag], key, perm, st)]
    {
      var m := blocks[tag];
      if key !in m { m := m[key := map[]]; }
      if perm in m[key] && m[key][perm] == Denied {
        assert blocks == blocks[tag := blocks[tag]];
        return;
      }
      m := m[key := m[key][perm := st]];
      assert m == Put(blocks[tag], key, perm, st);
      blocks := blocks[tag := m];
    }

    method ScanOne(r: Row)
      modifies this
      ensures Contents() == ScanRow(old(Contents()), r)
    {
      var st := StateOf(r.answer);
      if r.kind == "R" {
        if roles.Some? { roles := Some(roles.value[r.name := r.answer == Some(1)]); }
        return;
      }
      if st.None? { return; }
      if r.kind == "P" {
        if perms.Some? { perms := Some(perms.value[r.name := st.value]); }
        return;
      }
      if r.kind == "M" {
        if master.Some? { master := Some(master.value[r.name := st.value]); }
        return;
      }
      if |r.kind| < 2 || r.kind[1] != ':' { return; }
      var tag, perm := r.kind[0], r.kind[2..];
      if tag == 'D' {
        if explicitDatabase.Some? && ReadFlat(explicitDatabase, perm) != Denied {
          explicitDatabase := Some(explicitDatabase.value[perm := st.value]);
        }
      } else if tag in blocks && tag in EXPLICIT_TAGS {
        RecordState(tag, r.name, perm, st.value);
      } else if tag in blocks && tag in MEASURED_TAGS {
        var m := blocks[tag];
        if r.name !in m { m := m[r.name := map[]]; }
        m := m[r.name := m[r.name][perm := st.value]];
        assert m == Put(blocks[tag], r.name, perm, st.value);
        blocks := blocks[tag := m];
      }
    }

    method ScanRows(rows: seq<Row>)
      modifies this
      ensures Contents() == Scan(old(Contents()), rows)
    {
      for i := 0 to |rows|
        invariant Contents() == Scan(old(Contents()), rows[..i])
      {
        ScanOne(rows[i]);
        assert rows[..i + 1][..i] == rows[..i];
      }
      assert rows[..|rows|] == rows;
    }
  }
}
