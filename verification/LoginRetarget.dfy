/**
 The connector a pool dials through, swappable for one that logs in to another
 database: calls that dial without the lock, and moves made by writes, in any
 interleaving.
 */
module LoginRetarget {
  import opened SwitchPairs
  import opened Wrappers

  /** A database name: its simple-folding class, which is all comparisons look
      at, and its spelling. */
  datatype Database = Database(fold: nat, spelling: string)

  predicate EqualFold(a: Database, b: Database) {
    a.fold == b.fold
  }

  const MASTER := Database(0, "master")

  /** A driver connector: its identity, and the database it was built for. */
  datatype Connector = Connector(id: nat, database: Database)

  datatype DialError = Server(number: int, all: seq<int>) | Other

  /** The errors of a login the database refuses. */
  const LOGIN_REFUSALS: set<int> := {4060, 4063, 924, 927, 942, 952, 976}

  /** The refusal may come behind the login's own failure. */
  predicate LoginDatabaseRefused(e: DialError) {
    e.Server? && exists n :: n in [e.number] + e.all && n in LOGIN_REFUSALS
  }

  method SearchRefusal(e: DialError) returns (refused: bool)
    ensures refused <==> LoginDatabaseRefused(e)
  {
    if e.Other? { return false; }
    var numbers := [e.number] + e.all;
    for i := 0 to |numbers|
      invariant forall k :: 0 <= k < i ==> numbers[k] !in LOGIN_REFUSALS
    {
      if numbers[i] in LOGIN_REFUSALS { return true; }
    }
    return false;
  }

  // ---- the guarded fields ----

  /** What the mutex guards; `built` counts the connectors made so far, so that
      each has an identity of its own. */
  datatype Pool = Pool(cur: Connector, database: Database, fallBack: bool, built: nat)

  /** The swap: only if the pool still logs in to `from`, and only if the new
      connector can be built. */
  function Retargeted(p: Pool, from: Database, to: Database, builds: bool): Pool {
    if !EqualFold(p.database, from) || !builds then p
    else p.(cur := Connector(p.built, to), database := to, built := p.built + 1)
  }

  // ---- one Connect call ----

  /** Where a call stands between its turns. */
  datatype Call =
    | Dialling(cur: Connector, database: Database, fallBack: bool)
    | Refused(cur: Connector, database: Database)
    | Swapped(cur: Connector, database: Database, rebuilt: bool)
    | Redialling(cur: Connector, next: Connector)
    | Returned(ok: bool, dials: nat)

  /** How often a call has dialled. */
  function Dials(c: Call): nat {
    match c
    case Dialling(_, _, _) => 0
    case Refused(_, _) => 1
    case Swapped(_, _, _) => 1
    case Redialling(_, _) => 1
    case Returned(_, dials) => dials
  }

  datatype State = State(pool: Pool, calls: map<nat, Call>)

  /** The turns of any number of calls, and of the writes that move the pool. */
  datatype Step =
    | Begin(call: nat)
    | Dial(call: nat, err: Option<DialError>)
    | Swap(call: nat, builds: bool)
    | Reread(call: nat)
    | Redial(call: nat, ok: bool)
    | Move(from: Database, to: Database, builds: bool)
    | EnableFallBack

  /** After the first dial: the call returns, or goes on to the swap. */
  function AfterDial(c: Call, err: Option<DialError>): Call
    requires c.Dialling?
  {
    if err.None? then Returned(true, 1)
    else if !c.fallBack || EqualFold(c.database, MASTER) || !LoginDatabaseRefused(err.value) then Returned(false, 1)
    else Refused(c.cur, c.database)
  }

  predicate Enabled(s: State, step: Step) {
    match step
    case Begin(t) => t !in s.calls
    case Dial(t, _) => t in s.calls && s.calls[t].Dialling?
    case Swap(t, _) => t in s.calls && s.calls[t].Refused?
    case Reread(t) => t in s.calls && s.calls[t].Swapped?
    case Redial(t, _) => t in s.calls && s.calls[t].Redialling?
    case Move(_, _, _) => true
    case EnableFallBack => true
  }

  function Next(s: State, step: Step): State
    requires Enabled(s, step)
  {
    match step
    case Begin(t) =>
      s.(calls := s.calls[t := Dialling(s.pool.cur, s.pool.database, s.pool.fallBack)])
    case Dial(t, err) =>
      s.(calls := s.calls[t := AfterDial(s.calls[t], err)])
    case Swap(t, builds) =>
      var c := s.calls[t];
      State(Retargeted(s.pool, c.database, MASTER, builds), s.calls[t := Swapped(c.cur, c.database, builds)])
    case Reread(t) =>
      var c := s.calls[t];
      s.(calls := s.calls[t := if s.pool.cur == c.cur then Returned(false, 1) else Redialling(c.cur, s.pool.cur)])
    case Redial(t, ok) =>
      s.(calls := s.calls[t := Returned(ok, 2)])
    case Move(from, to, builds) =>
      s.(pool := Retargeted(s.pool, from, to, builds))
    case EnableFallBack =>
      s.(pool := s.pool.(fallBack := true))
  }

  /** A run: the steps, taken in turn; none if one of them cannot be taken. */
  function Run(s: State, steps: seq<Step>): Option<State>
    decreases |steps|
  {
    if steps == [] then Some(s)
    else if Enabled(s, steps[0]) then Run(Next(s, steps[0]), steps[1..])
    else None
  }

  function Start(database: Database): State {
    State(Pool(Connector(0, database), database, false, 1), map[])
  }

  // ---- what every run keeps ----

  /** A connector some call took: made before, never newer than the current one,
      and the current one itself if it has its identity. */
  predicate Taken(p: Pool, c: Connector) {
    c.id <= p.cur.id && (c.id == p.cur.id ==> c == p.cur)
  }

  ghost predicate CallFits(p: Pool, c: Call) {
    && Dials(c) <= 2
    && match c
       case Dialling(cur, database, _) => Taken(p, cur) && cur.database == database
       case Refused(cur, database) => Taken(p, cur) && cur.database == database && !EqualFold(database, MASTER)
       case Swapped(cur, database, rebuilt) =>
         && Taken(p, cur) && cur.database == database && !EqualFold(database, MASTER)
         && (rebuilt ==> cur.id < p.cur.id)
       case Redialling(cur, next) => Taken(p, cur) && Taken(p, next) && cur.id < next.id
       case Returned(_, _) => true
  }

  /** The current connector is the one built for the recorded database, and every
      call fits what it has seen. */
  ghost predicate Invariant(s: State) {
    && s.pool.cur.database == s.pool.database && s.pool.cur.id < s.pool.built
    && forall t :: t in s.calls ==> CallFits(s.pool, s.calls[t])
  }

  lemma RetargetKeepsCalls(p: Pool, from: Database, to: Database, builds: bool, c: Call)
    requires p.cur.id < p.built && CallFits(p, c)
    ensures CallFits(Retargeted(p, from, to, builds), c)
  {
  }

  lemma StepKeeps(s: State, step: Step)
    requires Invariant(s) && Enabled(s, step)
    ensures Invariant(Next(s, step))
  {
    var s' := Next(s, step);
    forall t | t in s'.calls ensures CallFits(s'.pool, s'.calls[t]) {
      match step
      case Swap(u, builds) =>
        if t == u {
          RetargetKeepsCalls(s.pool, s.calls[u].database, MASTER, builds, s.calls[u]);
        } else {
          RetargetKeepsCalls(s.pool, s.calls[u].database, MASTER, builds, s.calls[t]);
        }
      case Move(from, to, builds) => RetargetKeepsCalls(s.pool, from, to, builds, s.calls[t]);
      case _ =>
    }
  }

  // ---- counting dials ----

  predicate IsDialOf(step: Step, t: nat) {
    (step.Dial? || step.Redial?) && step.call == t
  }

  /** The dials of one call among the steps. */
  function DialCount(steps: seq<Step>, t: nat): nat {
    if steps == [] then 0 else (if IsDialOf(steps[0], t) then 1 else 0) + DialCount(steps[1..], t)
  }

  function DialsOf(s: State, t: nat): nat {
    if t in s.calls then Dials(s.calls[t]) else 0
  }

  /** What a call's phase says it has dialled is what its steps dialled. */
  lemma {:induction false} DialsAreCounted(s: State, steps: seq<Step>, t: nat)
    requires Run(s, steps).Some?
    ensures DialsOf(Run(s, steps).value, t) == DialsOf(s, t) + DialCount(steps, t)
    decreases |steps|
  {
    if steps != [] {
      DialsAreCounted(Next(s, steps[0]), steps[1..], t);
    }
  }

  /** However the steps interleave, no call among them dials more than twice. */
  lemma AtMostTwoDials(s: State, steps: seq<Step>, t: nat)
    requires Invariant(s) && Run(s, steps).Some?
    ensures DialCount(steps, t) <= 2
  {
    DialsAreCounted(s, steps, t);
    RunKeeps(s, steps);
  }

  /** Over every interleaving of calls and moves, the invariant. */
  lemma {:induction false} RunKeeps(s: State, steps: seq<Step>)
    requires Invariant(s) && Run(s, steps).Some?
    ensures Invariant(Run(s, steps).value)
    ensures forall t :: t in Run(s, steps).value.calls ==> Dials(Run(s, steps).value.calls[t]) <= 2
    decreases |steps|
  {
    if steps != [] {
      StepKeeps(s, steps[0]);
      RunKeeps(Next(s, steps[0]), steps[1..]);
    }
  }

  /** The pool moves on a refusal only if it still logs in to the database that
      refused, and the connector that dialled was built for it. */
  lemma RefusalMovesOnlyItsOwn(s: State, t: nat, builds: bool)
    requires Invariant(s) && Enabled(s, Swap(t, builds))
    requires Next(s, Swap(t, builds)).pool != s.pool
    ensures EqualFold(s.pool.database, s.calls[t].database)
    ensures s.calls[t].cur.database == s.calls[t].database
    ensures Next(s, Swap(t, builds)).pool.database == MASTER
    ensures !EqualFold(s.pool.database, MASTER)
  {
  }

  /** A refused call returns without a second dial only because its connector
      could not be rebuilt, and while the pool still holds the one it dialled. */
  lemma GivesUpOnlyUnbuilt(s: State, t: nat)
    requires Invariant(s) && Enabled(s, Reread(t))
    requires Next(s, Reread(t)).calls[t].Returned?
    ensures !s.calls[t].rebuilt && s.pool.cur == s.calls[t].cur
  {
  }

  // ---- counting swaps ----

  /** A refused dial of d moved the pool. */
  predicate SwapsAwayFrom(s: State, step: Step, d: Database)
    requires Enabled(s, step)
  {
    step.Swap? && EqualFold(s.pool.database, d) && Next(s, step).pool != s.pool
  }

  /** A write moved the pool to d from elsewhere. */
  predicate MovesInto(s: State, step: Step, d: Database)
    requires Enabled(s, step)
  {
    step.Move? && !EqualFold(s.pool.database, d) && EqualFold(Next(s, step).pool.database, d)
  }

  function SwapCount(s: State, steps: seq<Step>, d: Database): nat
    requires Run(s, steps).Some?
    decreases |steps|
  {
    if steps == [] then 0
    else One(SwapsAwayFrom(s, steps[0], d)) + SwapCount(Next(s, steps[0]), steps[1..], d)
  }

  function MoveCount(s: State, steps: seq<Step>, d: Database): nat
    requires Run(s, steps).Some?
    decreases |steps|
  {
    if steps == [] then 0
    else One(MovesInto(s, steps[0], d)) + MoveCount(Next(s, steps[0]), steps[1..], d)
  }

  /** However many calls a database refuses at once, the pool leaves it at most
      once for each time it was there. */
  lemma {:induction false} OneSwapPerStay(s: State, steps: seq<Step>, d: Database)
    requires Invariant(s) && Run(s, steps).Some? && !EqualFold(d, MASTER)
    ensures SwapCount(s, steps, d) + One(EqualFold(Run(s, steps).value.pool.database, d))
            <= MoveCount(s, steps, d) + One(EqualFold(s.pool.database, d))
    decreases |steps|
  {
    if steps != [] {
      StepKeeps(s, steps[0]);
      OneSwapPerStay(Next(s, steps[0]), steps[1..], d);
    }
  }

  // ---- master ----

  /** Once on master the pool stays, connector and all, until a write moves it
      from there. */
  lemma {:induction false} MasterIsAbsorbing(s: State, steps: seq<Step>)
    requires Invariant(s) && EqualFold(s.pool.database, MASTER) && Run(s, steps).Some?
    requires forall i :: 0 <= i < |steps| && steps[i].Move? ==> !EqualFold(steps[i].from, MASTER)
    ensures Run(s, steps).value.pool.cur == s.pool.cur
    ensures Run(s, steps).value.pool.database == s.pool.database
    decreases |steps|
  {
    if steps != [] {
      StepKeeps(s, steps[0]);
      MasterIsAbsorbing(Next(s, steps[0]), steps[1..]);
    }
  }

  /** With no write moving the pool, it dials the connector it was opened with or
      master, and a refused call that dials again dials master. */
  ghost predicate Unmoved(s: State, home: Connector) {
    && (s.pool.cur == home || s.pool.database == MASTER)
    && forall t :: t in s.calls ==> CallUnmoved(s.pool, s.calls[t], home)
  }

  ghost predicate CallUnmoved(p: Pool, c: Call, home: Connector) {
    match c
    case Dialling(cur, _, _) => cur == home || cur.database == MASTER
    case Refused(cur, _) => cur == home
    case Swapped(cur, _, rebuilt) => cur == home && (rebuilt ==> p.database == MASTER)
    case Redialling(_, next) => next.database == MASTER
    case Returned(_, _) => true
  }

  lemma {:induction false} UnmovedRuns(s: State, steps: seq<Step>, home: Connector)
    requires Invariant(s) && Unmoved(s, home) && Run(s, steps).Some?
    requires forall i :: 0 <= i < |steps| ==> !steps[i].Move?
    ensures Unmoved(Run(s, steps).value, home)
    decreases |steps|
  {
    if steps != [] {
      StepKeeps(s, steps[0]);
      UnmovedStep(s, steps[0], home);
      UnmovedRuns(Next(s, steps[0]), steps[1..], home);
    }
  }

  lemma UnmovedStep(s: State, step: Step, home: Connector)
    requires Invariant(s) && Unmoved(s, home) && Enabled(s, step) && !step.Move?
    ensures Unmoved(Next(s, step), home)
  {
    var s' := Next(s, step);
    forall t | t in s'.calls ensures CallUnmoved(s'.pool, s'.calls[t], home) {
      if t in s.calls { assert CallFits(s.pool, s.calls[t]) && CallUnmoved(s.pool, s.calls[t], home); }
    }
  }

  /** A freshly opened pool satisfies all of it. */
  lemma StartFits(home: Database)
    ensures Invariant(Start(home)) && Unmoved(Start(home), Start(home).pool.cur)
  {
  }

  // ---- which dials lead to a swap ----

  /** The seven numbers, in the error or behind it. */
  lemma RefusalNumbers(e: DialError)
    ensures LoginDatabaseRefused(e) <==> e.Server? && exists n :: n in [e.number] + e.all && IsRefusal(n)
  {
  }

  predicate IsRefusal(n: int) {
    n == 4060 || n == 4063 || n == 924 || n == 927 || n == 942 || n == 952 || n == 976
  }

  /** A call's first dial decides: a refusal of a database other than master, with
      the fall-back on when the call began, goes on to the swap; anything else is
      the call's answer. */
  lemma FirstDialDecides(s: State, t: nat, err: Option<DialError>)
    requires Enabled(s, Dial(t, err))
    ensures var c, next := s.calls[t], Next(s, Dial(t, err));
      && next.pool == s.pool
      && next.calls[t] ==
           if c.fallBack && !EqualFold(c.database, MASTER) && err.Some? && LoginDatabaseRefused(err.value)
           then Refused(c.cur, c.database) else Returned(err.None?, 1)
  {
  }

  /** Call t began at step b, on a database other than master and with the
      fall-back on, and its dial at step j was refused. */
  ghost predicate RefusedAt(s: State, steps: seq<Step>, t: nat, db: Database, b: nat, j: nat) {
    && b < j < |steps| && steps[b] == Begin(t) && Run(s, steps[..b]).Some?
    && (var p := Run(s, steps[..b]).value.pool; p.fallBack && p.database == db && !EqualFold(db, MASTER))
    && steps[j].Dial? && steps[j].call == t && steps[j].err.Some? && LoginDatabaseRefused(steps[j].err.value)
  }

  ghost predicate WasRefused(s: State, steps: seq<Step>, t: nat, db: Database) {
    exists b: nat, j: nat :: RefusedAt(s, steps, t, db, b, j)
  }

  /** Call t began at step b, and took what the pool then held. */
  ghost predicate BeganAt(s: State, steps: seq<Step>, t: nat, c: Call, b: nat) {
    && c.Dialling? && b < |steps| && steps[b] == Begin(t) && Run(s, steps[..b]).Some?
    && var p := Run(s, steps[..b]).value.pool;
       p.cur == c.cur && p.database == c.database && p.fallBack == c.fallBack
  }

  /** What a call's phase says of the steps before. */
  ghost predicate Traced(s: State, steps: seq<Step>, t: nat, c: Call) {
    match c
    case Dialling(_, _, _) => exists b: nat :: BeganAt(s, steps, t, c, b)
    case Refused(_, db) => WasRefused(s, steps, t, db)
    case Swapped(_, db, _) => WasRefused(s, steps, t, db)
    case Redialling(_, _) => exists db :: WasRefused(s, steps, t, db)
    case Returned(_, dials) => dials == 2 ==> exists db :: WasRefused(s, steps, t, db)
  }

  /** A run's last step. */
  lemma {:induction false} RunInit(s: State, steps: seq<Step>)
    requires steps != [] && Run(s, steps).Some?
    ensures var init, last := steps[..|steps| - 1], steps[|steps| - 1];
      && Run(s, init).Some? && Enabled(Run(s, init).value, last)
      && Run(s, steps).value == Next(Run(s, init).value, last)
    decreases |steps|
  {
    if |steps| > 1 {
      RunInit(Next(s, steps[0]), steps[1..]);
      assert steps[1..][..|steps| - 2] == steps[..|steps| - 1][1..];
    } else {
      assert steps[..0] == [];
    }
  }

  lemma {:induction false} RunPrefix(s: State, steps: seq<Step>, n: nat)
    requires n <= |steps| && Run(s, steps).Some?
    ensures Run(s, steps[..n]).Some?
    decreases |steps|
  {
    if n < |steps| {
      RunInit(s, steps);
      RunPrefix(s, steps[..|steps| - 1], n);
      assert steps[..|steps| - 1][..n] == steps[..n];
    } else {
      assert steps[..n] == steps;
    }
  }

  lemma TracedOn(s: State, steps: seq<Step>, step: Step, t: nat, c: Call)
    requires Traced(s, steps, t, c)
    ensures Traced(s, steps + [step], t, c)
  {
    forall b: nat | b < |steps| ensures (steps + [step])[..b] == steps[..b] { }
    if c.Dialling? {
      var b: nat :| BeganAt(s, steps, t, c, b);
      assert BeganAt(s, steps + [step], t, c, b);
    }
    forall db | WasRefused(s, steps, t, db) ensures WasRefused(s, steps + [step], t, db) {
      var b: nat, j: nat :| RefusedAt(s, steps, t, db, b, j);
      assert RefusedAt(s, steps + [step], t, db, b, j);
    }
  }

  lemma DialIsTraced(s: State, steps: seq<Step>, t: nat, err: Option<DialError>, c: Call)
    requires Traced(s, steps, t, c) && c.Dialling?
    ensures Traced(s, steps + [Dial(t, err)], t, AfterDial(c, err))
  {
    var next := AfterDial(c, err);
    if next.Refused? {
      var b: nat :| BeganAt(s, steps, t, c, b);
      assert (steps + [Dial(t, err)])[..b] == steps[..b];
      assert RefusedAt(s, steps + [Dial(t, err)], t, c.database, b, |steps|);
    }
  }

  lemma {:induction false} CallsAreTraced(s: State, steps: seq<Step>, t: nat)
    requires Run(s, steps).Some? && t !in s.calls && t in Run(s, steps).value.calls
    ensures Traced(s, steps, t, Run(s, steps).value.calls[t])
    decreases |steps|
  {
    RunInit(s, steps);
    var init, last := steps[..|steps| - 1], steps[|steps| - 1];
    assert steps == init + [last];
    var mid := Run(s, init).value;
    if t in mid.calls {
      CallsAreTraced(s, init, t);
      TracedOn(s, init, last, t, mid.calls[t]);
      if last.Dial? && last.call == t { DialIsTraced(s, init, t, last.err, mid.calls[t]); }
    } else {
      assert BeganAt(s, steps, t, Run(s, steps).value.calls[t], |init|);
    }
  }

  /** Over every interleaving: a call swaps only after its own dial was refused,
      the database not being master and the fall-back on when it began. */
  lemma SwapFollowsRefusal(s: State, steps: seq<Step>, i: nat)
    requires Run(s, steps).Some? && i < |steps| && steps[i].Swap? && steps[i].call !in s.calls
    ensures exists db :: WasRefused(s, steps[..i], steps[i].call, db)
  {
    RunPrefix(s, steps, i + 1);
    RunInit(s, steps[..i + 1]);
    assert steps[..i + 1][..i] == steps[..i];
    CallsAreTraced(s, steps[..i], steps[i].call);
  }

  /** ... and so for a second dial. */
  lemma RedialFollowsRefusal(s: State, steps: seq<Step>, i: nat)
    requires Run(s, steps).Some? && i < |steps| && steps[i].Redial? && steps[i].call !in s.calls
    ensures exists db :: WasRefused(s, steps[..i], steps[i].call, db)
  {
    RunPrefix(s, steps, i + 1);
    RunInit(s, steps[..i + 1]);
    assert steps[..i + 1][..i] == steps[..i];
    CallsAreTraced(s, steps[..i], steps[i].call);
  }

  lemma {:induction false} FallBackIsEnabled(s: State, steps: seq<Step>)
    requires Run(s, steps).Some? && !s.pool.fallBack && Run(s, steps).value.pool.fallBack
    ensures EnableFallBack in steps
    decreases |steps|
  {
    if steps[0] != EnableFallBack { FallBackIsEnabled(Next(s, steps[0]), steps[1..]); }
  }

  /** A pool whose fall-back nobody enables never swaps. */
  lemma NoSwapUnlessEnabled(home: Database, steps: seq<Step>, i: nat)
    requires Run(Start(home), steps).Some? && i < |steps| && steps[i].Swap?
    ensures EnableFallBack in steps[..i]
  {
    SwapFollowsRefusal(Start(home), steps, i);
    var db :| WasRefused(Start(home), steps[..i], steps[i].call, db);
    var b: nat, j: nat :| RefusedAt(Start(home), steps[..i], steps[i].call, db, b, j);
    FallBackIsEnabled(Start(home), steps[..i][..b]);
  }

  /** A refused call moves a pool still on the refused database to master, with a
      connector nobody has had, if one can be built; and leaves any other alone. */
  lemma RefusalMoves(s: State, t: nat, builds: bool)
    requires Invariant(s) && Enabled(s, Swap(t, builds))
    ensures var next := Next(s, Swap(t, builds)).pool;
      if builds && EqualFold(s.pool.database, s.calls[t].database) then
        && next.database == MASTER && next.cur.database == MASTER && next.cur.id > s.pool.cur.id
        && forall u :: u in s.calls && s.calls[u].Dialling? ==> s.calls[u].cur != next.cur
      else next == s.pool
  {
    forall u | u in s.calls && s.calls[u].Dialling? ensures s.calls[u].cur.id <= s.pool.cur.id {
      assert CallFits(s.pool, s.calls[u]);
    }
  }

  // ---- the object ----

  class RetargetingConnector {
    var cur: Connector
    var database: Database
    var fallBack: bool
    var built: nat

    ghost function Guarded(): Pool
      reads this
    {
      Pool(cur, database, fallBack, built)
    }

    constructor (home: Database)
      ensures Guarded() == Start(home).pool
    {
      cur, database, fallBack, built := Connector(0, home), home, false, 1;
    }

    method Current() returns (c: Connector)
      ensures c == cur
    {
      c := cur;
    }

    method Retarget(from: Database, to: Database, builds: bool)
      modifies this
      ensures Guarded() == Retargeted(old(Guarded()), from, to, builds)
    {
      if !EqualFold(database, from) || !builds { return; }
      cur, database, built := Connector(built, to), to, built + 1;
    }

    /** Connect with no other call in between: its turns in order. */
    method Connect(first: Option<DialError>, builds: bool, second: bool) returns (ok: bool, ghost turns: seq<Step>)
      requires cur.database == database && cur.id < built
      modifies this
      ensures var after := Run(State(old(Guarded()), map[]), turns);
        && after.Some? && after.value.pool == Guarded() && after.value.calls.Keys == {0}
        && after.value.calls[0].Returned? && after.value.calls[0].ok == ok
      ensures |turns| >= 2 && turns[0] == Begin(0) && turns[1] == Dial(0, first)
      ensures forall i :: 2 <= i < |turns| ==> turns[i] in {Swap(0, builds), Reread(0), Redial(0, second)}
      ensures cur.database == database && cur.id < built
      ensures var falls := old(fallBack) && !EqualFold(old(database), MASTER)
                           && first.Some? && LoginDatabaseRefused(first.value);
        && ok == (first.None? || (falls && builds && second))
        && (if falls && builds then database == MASTER && cur.id == old(built)
            else Guarded() == old(Guarded()))
    {
      var snapshot, named, may := cur, database, fallBack;
      ghost var s0 := State(Guarded(), map[]);
      ghost var s1 := Next(s0, Begin(0));
      ghost var s2 := Next(s1, Dial(0, first));
      var refused := false;
      if first.Some? { refused := SearchRefusal(first.value); }
      if first.None? || !may || EqualFold(named, MASTER) || !refused {
        turns := [Begin(0), Dial(0, first)];
        RunTwo(s0, Begin(0), Dial(0, first));
        return first.None?, turns;
      }
      Retarget(named, MASTER, builds);
      ghost var s3 := Next(s2, Swap(0, builds));
      var next := Current();
      ghost var s4 := Next(s3, Reread(0));
      turns := [Begin(0), Dial(0, first), Swap(0, builds), Reread(0)];
      RunFour(s0, Begin(0), Dial(0, first), Swap(0, builds), Reread(0));
      if next == snapshot { return false, turns; }
      ghost var s5 := Next(s4, Redial(0, second));
      RunSnoc(s0, turns, Redial(0, second));
      turns := turns + [Redial(0, second)];
      ok := second;
    }
  }

  lemma {:induction false} RunSnoc(s: State, steps: seq<Step>, step: Step)
    requires Run(s, steps).Some? && Enabled(Run(s, steps).value, step)
    ensures Run(s, steps + [step]) == Some(Next(Run(s, steps).value, step))
    decreases |steps|
  {
    if steps == [] {
      assert [step][1..] == [];
    } else {
      assert (steps + [step])[1..] == steps[1..] + [step];
      RunSnoc(Next(s, steps[0]), steps[1..], step);
    }
  }

  lemma RunTwo(s: State, a: Step, b: Step)
    requires Enabled(s, a) && Enabled(Next(s, a), b)
    ensures Run(s, [a, b]) == Some(Next(Next(s, a), b))
  {
    RunSnoc(s, [], a);
    RunSnoc(s, [a], b);
    assert [] + [a] == [a] && [a] + [b] == [a, b];
  }

  lemma RunFour(s: State, a: Step, b: Step, c: Step, d: Step)
    requires Enabled(s, a) && Enabled(Next(s, a), b)
    requires var s2 := Next(Next(s, a), b); Enabled(s2, c) && Enabled(Next(s2, c), d)
    ensures Run(s, [a, b, c, d]) == Some(Next(Next(Next(Next(s, a), b), c), d))
  {
    RunTwo(s, a, b);
    RunSnoc(s, [a, b], c);
    RunSnoc(s, [a, b, c], d);
    assert [a, b] + [c] == [a, b, c] && [a, b, c] + [d] == [a, b, c, d];
  }
}
