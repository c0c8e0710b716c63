/** availability_replica.go: a read-only routing list written as SQL and read
    back as rows. */
module RoutingList {
  import opened Text
  import opened Wrappers

  const COMMA := ", "

  // ---- text ----

  /** strings.ReplaceAll(s, "'", "''"). */
  function Doubled(s: string): string {
    if s == "" then "" else (if s[0] == '\'' then "''" else [s[0]]) + Doubled(s[1..])
  }

  function QuoteLiteral(s: string): string {
    "N'" + Doubled(s) + "'"
  }

  /** strings.Join(parts, ", "). */
  function Join(parts: seq<string>): string {
    if parts == [] then "" else if |parts| == 1 then parts[0] else parts[0] + COMMA + Join(parts[1..])
  }

  function Quoted(names: seq<string>): (r: seq<string>)
    ensures |r| == |names| && forall i :: 0 <= i < |r| ==> r[i] == QuoteLiteral(names[i])
  {
    if names == [] then [] else [QuoteLiteral(names[0])] + Quoted(names[1..])
  }

  /** One load-balanced set. */
  function GroupText(names: seq<string>): string {
    if |names| == 1 then QuoteLiteral(names[0]) else "(" + Join(Quoted(names)) + ")"
  }

  function GroupTexts(list: seq<seq<string>>): (r: seq<string>)
    ensures |r| == |list|
  {
    if list == [] then [] else [GroupText(list[0])] + GroupTexts(list[1..])
  }

  function ListText(list: seq<seq<string>>): string {
    if list == [] then "NONE" else "(" + Join(GroupTexts(list)) + ")"
  }

  /** A list as it is written out: a set of two in parentheses of its own, a single
      name bare, a quote in a name doubled. */
  lemma ListAsWritten()
    ensures ListText([["a", "b"], ["O'N"]]) == "((N'a', N'b'), N'O''N')"
  {
    SetsAsWritten();
    TwoSetsAsWritten([["a", "b"], ["O'N"]], "(N'a', N'b')", "N'O''N'");
  }

  lemma TwoSetsAsWritten(list: seq<seq<string>>, a: string, b: string)
    requires list != [] && GroupTexts(list) == [a, b]
    ensures ListText(list) == "(" + a + ", " + b + ")"
  {
    JoinTwo(a, b);
  }

  lemma SetsAsWritten()
    ensures GroupTexts([["a", "b"], ["O'N"]]) == ["(N'a', N'b')", "N'O''N'"]
  {
    PairAsWritten();
    OneNameAsWritten();
    assert [["a", "b"], ["O'N"]][1..] == [["O'N"]];
  }

  lemma JoinTwo(a: string, b: string)
    ensures Join([a, b]) == a + ", " + b
  {
    assert [a, b][1..] == [b];
    assert a + COMMA + b == a + ", " + b;
  }

  lemma PairAsWritten()
    ensures GroupText(["a", "b"]) == "(N'a', N'b')"
  {
    assert QuoteLiteral("a") == "N'a'" && QuoteLiteral("b") == "N'b'";
    assert Quoted(["a", "b"]) == ["N'a'", "N'b'"];
    JoinTwo("N'a'", "N'b'");
  }

  lemma OneNameAsWritten()
    ensures GroupTexts([["O'N"]]) == ["N'O''N'"]
  {
    assert "O'N"[1..] == "'N" && "'N"[1..] == "N" && Doubled("N") == "N";
    assert QuoteLiteral("O'N") == "N'O''N'";
    assert [["O'N"]][1..] == [];
  }

  // ---- writing ----

  predicate NoneEmpty(list: seq<seq<string>>) {
    forall i :: 0 <= i < |list| ==> list[i] != []
  }

  function NonEmpty(list: seq<seq<string>>): (r: seq<seq<string>>)
    ensures NoneEmpty(r)
  {
    if list == [] then []
    else (if list[0] == [] then [] else [list[0]]) + NonEmpty(list[1..])
  }

  lemma {:induction false} NonEmptySnoc(list: seq<seq<string>>, names: seq<string>)
    ensures NonEmpty(list + [names]) == NonEmpty(list) + if names == [] then [] else [names]
  {
    if list == [] {
      assert list + [names] == [names];
    } else {
      NonEmptySnoc(list[1..], names);
      assert (list + [names])[1..] == list[1..] + [names];
    }
  }

  /** Of a list with no empty set, nothing is dropped. */
  lemma {:induction false} FullListStays(list: seq<seq<string>>)
    requires NoneEmpty(list)
    ensures NonEmpty(list) == list
  {
    if list != [] {
      FullListStays(list[1..]);
      assert list == [list[0]] + list[1..];
    }
  }

  lemma {:induction false} GroupTextsSnoc(list: seq<seq<string>>, names: seq<string>)
    ensures GroupTexts(list + [names]) == GroupTexts(list) + [GroupText(names)]
  {
    if list == [] {
      assert list + [names] == [names];
    } else {
      GroupTextsSnoc(list[1..], names);
      assert (list + [names])[1..] == list[1..] + [names];
    }
  }

  lemma GroupTextsGrow(list: seq<seq<string>>, names: seq<string>)
    ensures GroupTexts(NonEmpty(list + [names])) ==
            GroupTexts(NonEmpty(list)) + if names == [] then [] else [GroupText(names)]
  {
    NonEmptySnoc(list, names);
    if names == [] {
      assert NonEmpty(list) + [] == NonEmpty(list);
    } else {
      GroupTextsSnoc(NonEmpty(list), names);
    }
  }

  predicate Named(names: seq<string>) {
    forall i :: 0 <= i < |names| ==> !Blank(names[i])
  }

  predicate AllNamed(list: seq<seq<string>>) {
    forall i :: 0 <= i < |list| ==> Named(list[i])
  }

  method IsBlank(s: string) returns (r: bool)
    ensures r == Blank(s)
  {
    for i := 0 to |s|
      invariant Blank(s[..i])
    {
      if !IsSpace(s[i]) { return false; }
      assert s[..i + 1] == s[..i] + [s[i]];
    }
    assert s[..|s|] == s;
    return true;
  }

  /** A set's names, quoted; a blank name is refused. */
  method QuoteNames(names: seq<string>) returns (r: Option<seq<string>>)
    ensures r.Some? <==> Named(names)
    ensures r.Some? ==> r.value == Quoted(names)
  {
    var texts := [];
    for i := 0 to |names|
      invariant |texts| == i && Named(names[..i])
      invariant forall k :: 0 <= k < i ==> texts[k] == QuoteLiteral(names[k])
    {
      var blank := IsBlank(names[i]);
      if blank { return None; }
      texts := texts + [QuoteLiteral(names[i])];
      assert names[..i + 1] == names[..i] + [names[i]];
    }
    assert names[..|names|] == names;
    assert texts == Quoted(names);
    return Some(texts);
  }

  method FormatRoutingList(list: seq<seq<string>>) returns (r: Option<string>)
    ensures r == if AllNamed(list) then Some(ListText(NonEmpty(list))) else None
  {
    var groups := [];
    for i := 0 to |list|
      invariant groups == GroupTexts(NonEmpty(list[..i])) && AllNamed(list[..i])
    {
      var names := QuoteNames(list[i]);
      if names.None? { return None; }
      var texts := names.value;
      assert list[..i + 1] == list[..i] + [list[i]];
      GroupTextsGrow(list[..i], list[i]);
      match |texts| {
        case 0 =>
        case 1 => groups := groups + [texts[0]];
        case _ => groups := groups + ["(" + Join(texts) + ")"];
      }
    }
    assert list[..|list|] == list;
    if |groups| == 0 { return Some("NONE"); }
    return Some("(" + Join(groups) + ")");
  }

  // ---- reading the text ----

  /** A reading: what was read and the text after it. */
  datatype Reading<T> = Reading(value: T, rest: string)

  predicate Starts(s: string, c: char) { s != "" && s[0] == c }

  /** The rest of a literal: a doubled quote is a quote, a lone one ends it. */
  function ReadQuoted(s: string): (r: Option<Reading<string>>)
    ensures r.Some? ==> |r.value.rest| < |s|
    decreases |s|
  {
    if s == "" then None
    else if s[0] != '\'' then Prepended(s[0], ReadQuoted(s[1..]))
    else if Starts(s[1..], '\'') then Prepended('\'', ReadQuoted(s[2..]))
    else Some(Reading("", s[1..]))
  }

  function Prepended(c: char, r: Option<Reading<string>>): Option<Reading<string>> {
    match r case None => None case Some(x) => Some(Reading([c] + x.value, x.rest))
  }

  function ReadLiteral(s: string): (r: Option<Reading<string>>)
    ensures r.Some? ==> |r.value.rest| < |s|
  {
    if "N'" <= s then ReadQuoted(s[2..]) else None
  }

  /** Literals with commas between them. */
  function ReadNames(s: string): (r: Option<Reading<seq<string>>>)
    ensures r.Some? ==> |r.value.rest| < |s|
    decreases |s|
  {
    match ReadLiteral(s)
    case None => None
    case Some(first) =>
      if COMMA <= first.rest then
        match ReadNames(first.rest[2..])
        case None => None
        case Some(more) => Some(Reading([first.value] + more.value, more.rest))
      else Some(Reading([first.value], first.rest))
  }

  function ReadGroup(s: string): (r: Option<Reading<seq<string>>>)
    ensures r.Some? ==> |r.value.rest| < |s|
  {
    if Starts(s, '(') then
      match ReadNames(s[1..])
      case None => None
      case Some(names) =>
        if |names.value| >= 2 && Starts(names.rest, ')') then Some(Reading(names.value, names.rest[1..])) else None
    else
      match ReadLiteral(s)
      case None => None
      case Some(name) => Some(Reading([name.value], name.rest))
  }

  function ReadGroups(s: string): (r: Option<Reading<seq<seq<string>>>>)
    ensures r.Some? ==> |r.value.rest| < |s|
    decreases |s|
  {
    match ReadGroup(s)
    case None => None
    case Some(first) =>
      if COMMA <= first.rest then
        match ReadGroups(first.rest[2..])
        case None => None
        case Some(more) => Some(Reading([first.value] + more.value, more.rest))
      else Some(Reading([first.value], first.rest))
  }

  /** The right-hand side of READ_ONLY_ROUTING_LIST. */
  function ReadList(s: string): Option<seq<seq<string>>> {
    if s == "NONE" then Some([])
    else if Starts(s, '(') then
      match ReadGroups(s[1..])
      case None => None
      case Some(groups) => if groups.rest == ")" then Some(groups.value) else None
    else None
  }

  // ---- reading undoes writing ----

  lemma {:induction false} QuotedReads(s: string, rest: string)
    requires !Starts(rest, '\'')
    ensures ReadQuoted(Doubled(s) + ("'" + rest)) == Some(Reading(s, rest))
  {
    var text := Doubled(s) + ("'" + rest);
    if s == "" {
      assert text == "'" + rest;
      assert text[1..] == rest;
    } else {
      QuotedReads(s[1..], rest);
      var tail := Doubled(s[1..]) + ("'" + rest);
      if s[0] == '\'' {
        assert text == "''" + tail;
        assert text[2..] == tail && text[1..][0] == '\'';
      } else {
        assert text == [s[0]] + tail;
        assert text[1..] == tail;
      }
      assert s == [s[0]] + s[1..];
    }
  }

  lemma LiteralReads(s: string, rest: string)
    requires !Starts(rest, '\'')
    ensures ReadLiteral(QuoteLiteral(s) + rest) == Some(Reading(s, rest))
  {
    var text := QuoteLiteral(s) + rest;
    assert text == "N'" + (Doubled(s) + ("'" + rest));
    assert text[2..] == Doubled(s) + ("'" + rest);
    QuotedReads(s, rest);
  }

  /** Text that ends a list: neither a comma nor a quote. */
  predicate Ends(rest: string) {
    !Starts(rest, ',') && !Starts(rest, '\'')
  }

  lemma OneMoreName(name: string, after: string, more: seq<string>, rest: string)
    requires ReadNames(after) == Some(Reading(more, rest))
    ensures ReadNames(QuoteLiteral(name) + (COMMA + after)) == Some(Reading([name] + more, rest))
  {
    LiteralReads(name, COMMA + after);
    assert (COMMA + after)[2..] == after;
  }

  lemma JoinOneMore(text: string, texts: seq<string>, rest: string)
    requires texts != []
    ensures Join([text] + texts) + rest == text + (COMMA + (Join(texts) + rest))
  {
    assert ([text] + texts)[1..] == texts;
  }

  lemma {:induction false} NamesRead(names: seq<string>, rest: string)
    requires names != [] && Ends(rest)
    ensures ReadNames(Join(Quoted(names)) + rest) == Some(Reading(names, rest))
  {
    if |names| == 1 {
      LiteralReads(names[0], rest);
      assert names == [names[0]];
    } else {
      var texts := Quoted(names[1..]);
      NamesRead(names[1..], rest);
      OneMoreName(names[0], Join(texts) + rest, names[1..], rest);
      JoinOneMore(QuoteLiteral(names[0]), texts, rest);
      assert names == [names[0]] + names[1..];
    }
  }

  lemma OneNameReads(name: string, rest: string)
    requires !Starts(rest, '\'')
    ensures ReadGroup(QuoteLiteral(name) + rest) == Some(Reading([name], rest))
  {
    LiteralReads(name, rest);
    assert (QuoteLiteral(name) + rest)[0] == 'N';
  }

  lemma SetReads(body: string, names: seq<string>, rest: string)
    requires |names| >= 2
    requires ReadNames(body + (")" + rest)) == Some(Reading(names, ")" + rest))
    ensures ReadGroup("(" + body + ")" + rest) == Some(Reading(names, rest))
  {
    var inner := body + (")" + rest);
    assert "(" + body + ")" + rest == "(" + inner;
    assert ("(" + inner)[1..] == inner;
    assert (")" + rest)[1..] == rest;
  }

  lemma GroupReads(names: seq<string>, rest: string)
    requires names != [] && !Starts(rest, '\'')
    ensures ReadGroup(GroupText(names) + rest) == Some(Reading(names, rest))
  {
    if |names| == 1 {
      OneNameReads(names[0], rest);
      assert names == [names[0]];
    } else {
      NamesRead(names, ")" + rest);
      SetReads(Join(Quoted(names)), names, rest);
    }
  }

  lemma OneMoreGroup(text: string, first: seq<string>, after: string, more: seq<seq<string>>, rest: string)
    requires ReadGroup(text + (COMMA + after)) == Some(Reading(first, COMMA + after))
    requires ReadGroups(after) == Some(Reading(more, rest))
    ensures ReadGroups(text + (COMMA + after)) == Some(Reading([first] + more, rest))
  {
    assert (COMMA + after)[2..] == after;
  }

  lemma {:induction false} GroupsRead(list: seq<seq<string>>, rest: string)
    requires list != [] && Ends(rest) && NoneEmpty(list)
    ensures ReadGroups(Join(GroupTexts(list)) + rest) == Some(Reading(list, rest))
  {
    if |list| == 1 {
      LastGroupReads(list[0], rest);
      assert list == [list[0]];
    } else {
      var first, more := list[0], list[1..];
      assert list == [first] + more;
      var texts := GroupTexts(more);
      GroupsRead(more, rest);
      GroupReads(first, COMMA + (Join(texts) + rest));
      OneMoreGroup(GroupText(first), first, Join(texts) + rest, more, rest);
      JoinOneMore(GroupText(first), texts, rest);
    }
  }

  lemma LastGroupReads(names: seq<string>, rest: string)
    requires names != [] && Ends(rest)
    ensures ReadGroups(GroupText(names) + rest) == Some(Reading([names], rest))
  {
    GroupReads(names, rest);
  }

  /** Whatever the names hold, the text reads as the list with its empty sets
      dropped, and so as no other. */
  lemma ListReads(list: seq<seq<string>>)
    ensures ReadList(ListText(NonEmpty(list))) == Some(NonEmpty(list))
  {
    var kept := NonEmpty(list);
    if kept != [] {
      GroupsRead(kept, ")");
      var body := Join(GroupTexts(kept)) + ")";
      assert ListText(kept) == "(" + body;
      assert ("(" + body)[1..] == body;
    }
  }

  // ---- reading the rows ----

  datatype Row = Row(priority: int, name: string)

  /** A name put in a set of its own, or in the last one. */
  function Filed(list: seq<seq<string>>, name: string, anew: bool): (r: seq<seq<string>>)
    requires !anew ==> list != []
    ensures r != [] && (NoneEmpty(list) ==> NoneEmpty(r))
  {
    if anew then list + [[name]] else list[..|list| - 1] + [list[|list| - 1] + [name]]
  }

  /** The rows before decide whether a row starts a set. */
  predicate IsFresh(rows: seq<Row>, priority: int) {
    rows == [] || rows[|rows| - 1].priority != priority
  }

  /** The rows in sets of one priority. */
  function Grouped(rows: seq<Row>): (r: seq<seq<string>>)
    ensures (rows == [] <==> r == []) && NoneEmpty(r)
  {
    if rows == [] then []
    else
      var before, row := rows[..|rows| - 1], rows[|rows| - 1];
      Filed(Grouped(before), row.name, IsFresh(before, row.priority))
  }

  lemma GroupedSnoc(rows: seq<Row>, row: Row)
    ensures Grouped(rows + [row]) == Filed(Grouped(rows), row.name, IsFresh(rows, row.priority))
  {
    assert (rows + [row])[..|rows|] == rows;
  }

  /** The read loop; -1 stands for no priority yet. None is the panic of a first
      row with that priority, which finds no set to join. */
  method ReadOnlyRoutingList(rows: seq<Row>) returns (r: Option<seq<seq<string>>>)
    ensures r == if rows != [] && rows[0].priority == -1 then None else Some(Grouped(rows))
  {
    var list: seq<seq<string>> := [];
    var lastPriority := -1;
    for i := 0 to |rows|
      invariant list == Grouped(rows[..i])
      invariant lastPriority == if i == 0 then -1 else rows[i - 1].priority
      invariant i > 0 ==> rows[0].priority != -1
    {
      var row := rows[i];
      GroupedSnoc(rows[..i], row);
      assert rows[..i + 1] == rows[..i] + [row];
      if row.priority != lastPriority {
        list := list + [[]];
        lastPriority := row.priority;
        assert list[..|list| - 1] == Grouped(rows[..i]);
        assert [] + [row.name] == [row.name];
      }
      if list == [] { return None; }
      var last := |list| - 1;
      list := list[..last] + [list[last] + [row.name]];
    }
    assert rows[..|rows|] == rows;
    return Some(list);
  }

  /** One set's rows. */
  function RowsOf(priority: int, names: seq<string>): seq<Row> {
    seq(|names|, i requires 0 <= i < |names| => Row(priority, names[i]))
  }

  function Flattened(list: seq<seq<string>>, priorities: seq<int>): seq<Row>
    requires |priorities| == |list|
  {
    if list == [] then []
    else
      var n := |list| - 1;
      Flattened(list[..n], priorities[..n]) + RowsOf(priorities[n], list[n])
  }

  /** Sets the rows tell apart: none empty, and no two neighbours of one
      priority. */
  predicate Separate(list: seq<seq<string>>, priorities: seq<int>) {
    && |priorities| == |list|
    && NoneEmpty(list)
    && (forall i :: 0 < i < |list| ==> priorities[i] != priorities[i - 1])
  }

  lemma RowsOfSnoc(priority: int, names: seq<string>, name: string)
    ensures RowsOf(priority, names + [name]) == RowsOf(priority, names) + [Row(priority, name)]
  {
  }

  lemma {:induction false} RunJoins(rows: seq<Row>, priority: int, names: seq<string>)
    requires names != [] && IsFresh(rows, priority)
    ensures Grouped(rows + RowsOf(priority, names)) == Grouped(rows) + [names]
    decreases |names|
  {
    var n := |names| - 1;
    var init, name := names[..n], names[n];
    var before := rows + RowsOf(priority, init);
    assert names == init + [name];
    RowsOfSnoc(priority, init, name);
    assert rows + RowsOf(priority, names) == before + [Row(priority, name)];
    GroupedSnoc(before, Row(priority, name));
    if n == 0 {
      assert before == rows;
    } else {
      RunJoins(rows, priority, init);
      LastIsFiled(Grouped(rows), init, name);
    }
  }

  lemma LastIsFiled(list: seq<seq<string>>, names: seq<string>, name: string)
    ensures Filed(list + [names], name, false) == list + [names + [name]]
  {
    assert (list + [names])[..|list|] == list;
  }

  lemma LastOfFlattened(list: seq<seq<string>>, priorities: seq<int>)
    requires Separate(list, priorities) && list != []
    ensures var rows := Flattened(list, priorities);
            rows != [] && rows[|rows| - 1].priority == priorities[|list| - 1]
  {
  }

  /** Grouping undoes flattening. */
  lemma {:induction false} GroupingUndoesFlattening(list: seq<seq<string>>, priorities: seq<int>)
    requires Separate(list, priorities)
    ensures Grouped(Flattened(list, priorities)) == list
  {
    if list != [] {
      var n := |list| - 1;
      var init, before := list[..n], priorities[..n];
      assert list == init + [list[n]];
      GroupingUndoesFlattening(init, before);
      if n > 0 { LastOfFlattened(init, before); }
      RunJoins(Flattened(init, before), priorities[n], list[n]);
    }
  }

  /** A server that takes the text at its word and numbers its sets by priority
      gives the list back, empty sets dropped. */
  lemma WrittenThenRead(list: seq<seq<string>>, priorities: seq<int>)
    requires Separate(NonEmpty(list), priorities)
    ensures var stored := ReadList(ListText(NonEmpty(list)));
            && stored.Some? && |stored.value| == |priorities|
            && Grouped(Flattened(stored.value, priorities)) == NonEmpty(list)
  {
    ListReads(list);
    GroupingUndoesFlattening(NonEmpty(list), priorities);
  }
}
