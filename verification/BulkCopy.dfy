/**
 A bulk load on one pinned connection. Once a row has been sent the server
 waits for more, so a load given up before its final flush leaves a connection
 no other caller may be handed.
 */
module BulkCopy {
  import opened Wrappers
  import opened NumberConverters
  import opened BulkValue

  type Converter = Value -> Result<Value, Reason>

  /** One item of the row source: its values, None being NULL, or its failure. */
  datatype Row = Values(vals: seq<Option<Value>>) | Unreadable

  /** Why a load stopped; rows and columns count from 1. */
  datatype LoadError =
    | NoConverters
    | PrepareFailed
    | ReadFailed(row: nat)
    | WrongWidth(row: nat)
    | BadValue(row: nat, column: nat, reason: Reason)
    | SendFailed(row: nat)
    | FlushFailed

  /** A load and its fate: what the source yields, which sends the driver
      completes, after which rows the server ends a batch, how the flush ends. A
      load with no RowsPerBatch is one batch: no row ends one. */
  datatype Load = Load(
    columns: seq<Option<Converter>>, rows: seq<Row>,
    readsColumns: bool, prepares: bool, sends: nat -> bool, endsBatch: nat -> bool, flushes: bool,
    affected: Option<nat>)

  class Connection {
    /** The rows the server holds of a batch it has not finished. */
    var pending: seq<seq<Option<Value>>>
    /** A row, or a part of one, has been sent and no flush has ended the copy. */
    var midCopy: bool
    /** Rows of finished batches. */
    var stored: seq<seq<Option<Value>>>
    /** Marked bad: the pool throws it away. */
    var discarded: bool

    constructor ()
      ensures pending == [] && !midCopy && stored == [] && !discarded
    {
      pending, midCopy, stored, discarded := [], false, [], false;
    }

    method SendRow(vals: seq<Option<Value>>, ok: bool, endsBatch: bool) returns (sent: bool)
      modifies this`pending, this`midCopy, this`stored
      ensures sent == ok && midCopy
      ensures !ok ==> pending == old(pending) && stored == old(stored)
      ensures ok && !endsBatch ==> pending == old(pending) + [vals] && stored == old(stored)
      ensures ok && endsBatch ==> pending == [] && stored == old(stored) + (old(pending) + [vals])
    {
      midCopy := true;
      if ok {
        pending := pending + [vals];
        if endsBatch { stored, pending := stored + pending, []; }
      }
      sent := ok;
    }

    method Flush(ok: bool) returns (done: bool)
      modifies this`pending, this`midCopy, this`stored
      ensures done == ok
      ensures ok ==> !midCopy && pending == [] && stored == old(stored) + old(pending)
      ensures !ok ==> midCopy && pending == old(pending) && stored == old(stored)
    {
      if ok {
        stored := stored + pending;
        pending, midCopy := [], false;
      } else {
        midCopy := true;
      }
      done := ok;
    }

    method Discard()
      modifies this`discarded
      ensures discarded
    {
      discarded := true;
    }

    /** The pool may hand the connection to another caller. */
    predicate Poolable()
      reads this
    {
      !discarded
    }
  }

  // ---- what a load does to a row ----

  function ConvertOne(c: Option<Converter>, v: Option<Value>): Result<Option<Value>, Reason> {
    if v.None? || c.None? then Ok(v)
    else match c.value(v.value) case Ok(w) => Ok(Some(w)) case Err(e) => Err(e)
  }

  predicate Converts(columns: seq<Option<Converter>>, vals: seq<Option<Value>>, i: nat)
    requires |columns| == |vals| && i < |vals|
  {
    ConvertOne(columns[i], vals[i]).Ok?
  }

  /** vals converted, column by column. */
  ghost predicate IsConverted(columns: seq<Option<Converter>>, vals: seq<Option<Value>>, sent: seq<Option<Value>>)
    requires |columns| == |vals|
  {
    |sent| == |vals| && forall i :: 0 <= i < |vals| ==> ConvertOne(columns[i], vals[i]) == Ok(sent[i])
  }

  method ConvertRow(columns: seq<Option<Converter>>, vals: seq<Option<Value>>, row: nat)
    returns (r: Result<seq<Option<Value>>, LoadError>)
    requires |columns| == |vals|
    ensures r.Ok? <==> forall i :: 0 <= i < |vals| ==> Converts(columns, vals, i)
    ensures r.Ok? ==> IsConverted(columns, vals, r.value)
    ensures r.Err? ==> exists i :: FirstBad(columns, vals, row, i, r.error)
  {
    var sent: seq<Option<Value>> := [];
    for i := 0 to |vals|
      invariant |sent| == i
      invariant forall k :: 0 <= k < i ==> Converts(columns, vals, k) && ConvertOne(columns[k], vals[k]) == Ok(sent[k])
    {
      var one := ConvertOne(columns[i], vals[i]);
      if one.Err? {
        assert !Converts(columns, vals, i);
        assert FirstBad(columns, vals, row, i, BadValue(row + 1, i + 1, one.error));
        return Err(BadValue(row + 1, i + 1, one.error));
      }
      sent := sent + [one.value];
    }
    return Ok(sent);
  }

  /** e names value i of row `row` (counted from 0), its first that does not
      convert. */
  ghost predicate FirstBad(columns: seq<Option<Converter>>, vals: seq<Option<Value>>, row: nat, i: int, e: LoadError)
    requires |columns| == |vals|
  {
    && 0 <= i < |vals| && (forall k :: 0 <= k < i ==> Converts(columns, vals, k))
    && ConvertOne(columns[i], vals[i]).Err?
    && e == BadValue(row + 1, i + 1, ConvertOne(columns[i], vals[i]).error)
  }

  /** Row i goes through: read, of the right width, convertible, sent. */
  ghost predicate Goes(l: Load, i: nat)
    requires i < |l.rows|
  {
    && l.rows[i].Values? && |l.rows[i].vals| == |l.columns|
    && (forall k :: 0 <= k < |l.columns| ==> Converts(l.columns, l.rows[i].vals, k))
    && l.sends(i)
  }

  /** The error that stops at row i. */
  ghost predicate StopsAt(l: Load, i: nat, e: LoadError)
    requires i < |l.rows|
  {
    match l.rows[i]
    case Unreadable => e == ReadFailed(i + 1)
    case Values(vals) =>
      if |vals| != |l.columns| then e == WrongWidth(i + 1)
      else if exists k :: 0 <= k < |vals| && !Converts(l.columns, vals, k) then
        exists k :: FirstBad(l.columns, vals, i, k, e)
      else !l.sends(i) && e == SendFailed(i + 1)
  }

  /** The first n rows, converted, in order. */
  ghost predicate SentSoFar(l: Load, n: nat, sent: seq<seq<Option<Value>>>)
    requires n <= |l.rows|
  {
    && |sent| == n
    && forall i :: 0 <= i < n ==> Goes(l, i) && IsConverted(l.columns, l.rows[i].vals, sent[i])
  }

  /** Of n rows sent, those in batches the server has ended. */
  function Kept(l: Load, n: nat): (k: nat)
    ensures k <= n
    ensures (forall i :: 0 <= i < n ==> !l.endsBatch(i)) ==> k == 0
  {
    if n == 0 then 0 else if l.endsBatch(n - 1) then n else Kept(l, n - 1)
  }

  /** The connection after n rows: the ended batches stored, the rest pending. */
  ghost predicate Holds(l: Load, n: nat, kept: seq<seq<Option<Value>>>, was: seq<seq<Option<Value>>>,
                        stored: seq<seq<Option<Value>>>, pending: seq<seq<Option<Value>>>)
    requires n <= |l.rows|
  {
    SentSoFar(l, n, kept + pending) && |kept| == Kept(l, n) && stored == was + kept
  }

  /** Of n rows that went, the ended batches are stored and nothing else. */
  ghost predicate KeptOnly(l: Load, n: nat, was: seq<seq<Option<Value>>>, stored: seq<seq<Option<Value>>>)
    requires n <= |l.rows|
  {
    exists sent :: SentSoFar(l, n, sent) && stored == was + sent[..Kept(l, n)]
  }

  ghost predicate AllStored(l: Load, was: seq<seq<Option<Value>>>, stored: seq<seq<Option<Value>>>) {
    exists sent :: SentSoFar(l, |l.rows|, sent) && stored == was + sent
  }

  lemma HeldIsKept(l: Load, n: nat, kept: seq<seq<Option<Value>>>, was: seq<seq<Option<Value>>>,
                   stored: seq<seq<Option<Value>>>, pending: seq<seq<Option<Value>>>)
    requires n <= |l.rows| && Holds(l, n, kept, was, stored, pending)
    ensures KeptOnly(l, n, was, stored)
    ensures n == |l.rows| ==> AllStored(l, was, stored + pending)
    ensures (forall i :: 0 <= i < |l.rows| ==> !l.endsBatch(i)) ==> stored == was
    ensures forall i :: 0 <= i < n ==> Goes(l, i)
  {
    assert (kept + pending)[..Kept(l, n)] == kept;
    assert stored + pending == was + (kept + pending);
  }

  lemma NothingHeld(l: Load, was: seq<seq<Option<Value>>>)
    ensures Holds(l, 0, [], was, was, [])
  {
  }

  lemma OneMoreHeld(l: Load, n: nat, kept: seq<seq<Option<Value>>>, was: seq<seq<Option<Value>>>,
                    stored: seq<seq<Option<Value>>>, pending: seq<seq<Option<Value>>>, vals: seq<Option<Value>>)
    requires n < |l.rows| && Holds(l, n, kept, was, stored, pending)
    requires Goes(l, n) && IsConverted(l.columns, l.rows[n].vals, vals)
    ensures l.endsBatch(n) ==> Holds(l, n + 1, kept + (pending + [vals]), was, stored + (pending + [vals]), [])
    ensures !l.endsBatch(n) ==> Holds(l, n + 1, kept, was, stored, pending + [vals])
  {
    var sent := kept + pending;
    assert SentSoFar(l, n + 1, sent + [vals]);
    assert kept + (pending + [vals]) == sent + [vals];
    assert kept + (pending + [vals]) + [] == sent + [vals];
    assert was + kept + (pending + [vals]) == was + (kept + (pending + [vals]));
  }

  /** One turn of the loop: the row is sent, or the connection given up. */
  method LoadRow(conn: Connection, l: Load, n: nat) returns (err: Option<LoadError>, ghost vals: seq<Option<Value>>)
    requires n < |l.rows| && !conn.discarded
    modifies conn
    ensures err.None? ==>
      && Goes(l, n) && IsConverted(l.columns, l.rows[n].vals, vals) && !conn.discarded
      && (l.endsBatch(n) ==> conn.pending == [] && conn.stored == old(conn.stored) + (old(conn.pending) + [vals]))
      && (!l.endsBatch(n) ==> conn.pending == old(conn.pending) + [vals] && conn.stored == old(conn.stored))
    ensures err.Some? ==>
      && !Goes(l, n) && StopsAt(l, n, err.value) && err.value !in {NoConverters, PrepareFailed, FlushFailed}
      && !conn.Poolable() && conn.stored == old(conn.stored)
  {
    err, vals := None, [];
    var row := l.rows[n];
    if row.Unreadable? {
      conn.Discard();
      return Some(ReadFailed(n + 1)), [];
    }
    if |row.vals| != |l.columns| {
      conn.Discard();
      return Some(WrongWidth(n + 1)), [];
    }
    var converted := ConvertRow(l.columns, row.vals, n);
    if converted.Err? {
      ghost var k :| FirstBad(l.columns, row.vals, n, k, converted.error);
      assert !Converts(l.columns, row.vals, k);
      conn.Discard();
      return Some(converted.error), [];
    }
    vals := converted.value;
    var done := conn.SendRow(converted.value, l.sends(n), l.endsBatch(n));
    if !done {
      conn.Discard();
      err := Some(SendFailed(n + 1));
    }
  }

  /** The load: all the rows stored, or the first thing that went wrong, and in no
      case a connection left in mid-copy for the pool. */
  method Run(conn: Connection, l: Load) returns (n: nat, err: Option<LoadError>)
    requires !conn.midCopy && conn.pending == [] && !conn.discarded
    modifies conn
    ensures conn.midCopy ==> !conn.Poolable()
    ensures err.None? ==>
      && conn.Poolable() && !conn.midCopy
      && AllStored(l, old(conn.stored), conn.stored)
      && n == (match l.affected case Some(k) => k case None => |l.rows|)
    ensures err.Some? ==> n <= |l.rows| && KeptOnly(l, n, old(conn.stored), conn.stored)
    ensures err.Some? && (forall i :: 0 <= i < |l.rows| ==> !l.endsBatch(i)) ==> conn.stored == old(conn.stored)
    ensures err.None? <==>
      l.readsColumns && l.prepares && l.flushes && (forall i :: 0 <= i < |l.rows| ==> Goes(l, i))
    ensures err == Some(NoConverters) <==> !l.readsColumns
    ensures err == Some(PrepareFailed) <==> l.readsColumns && !l.prepares
    ensures err == Some(FlushFailed) <==>
      l.readsColumns && l.prepares && !l.flushes && (forall i :: 0 <= i < |l.rows| ==> Goes(l, i))
    ensures err in {Some(NoConverters), Some(PrepareFailed)} ==> n == 0 && conn.Poolable()
    ensures err.Some? && err.value !in {NoConverters, PrepareFailed} ==>
      && !conn.Poolable() && n <= |l.rows|
      && (forall i :: 0 <= i < n ==> Goes(l, i))
      && (if n < |l.rows| && err.value != FlushFailed then StopsAt(l, n, err.value) else err == Some(FlushFailed))
  {
    n, err := 0, None;
    ghost var kept: seq<seq<Option<Value>>> := [];
    NothingHeld(l, conn.stored);
    HeldIsKept(l, 0, kept, conn.stored, conn.stored, conn.pending);
    if !l.readsColumns { return 0, Some(NoConverters); }
    if !l.prepares { return 0, Some(PrepareFailed); }
    while n < |l.rows|
      invariant n <= |l.rows| && err.None? && !conn.discarded
      invariant Holds(l, n, kept, old(conn.stored), conn.stored, conn.pending)
    {
      HeldIsKept(l, n, kept, old(conn.stored), conn.stored, conn.pending);
      ghost var before := (conn.stored, conn.pending);
      ghost var vals;
      err, vals := LoadRow(conn, l, n);
      if err.Some? { return; }
      OneMoreHeld(l, n, kept, old(conn.stored), before.0, before.1, vals);
      if l.endsBatch(n) { kept := kept + (before.1 + [vals]); }
      n := n + 1;
    }
    HeldIsKept(l, n, kept, old(conn.stored), conn.stored, conn.pending);
    var done := conn.Flush(l.flushes);
    if !done {
      conn.Discard();
      return n, Some(FlushFailed);
    }
    if l.affected.Some? { n := l.affected.value; }
  }
}
