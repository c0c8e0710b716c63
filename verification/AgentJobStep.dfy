/**
 Reordering a job's steps.

 msdb has no renumber operation, so a new order is compiled into deletes and
 inserts, a repair of every "go to step N", and a repair of the start step, all
 in one transactional batch.
 */
module AgentJobStep {
  import opened Wrappers
  import opened Permutations
  import opened Msdb

  // ---- the statements of a reorder ----

  function OptionalText(t: string): Option<string> {
    if t != "" then Some(t) else None
  }

  /** The parameters a moved step is added back with. */
  function ReAddArgs(d: Definition): AddArgs {
    AddArgs(d.name, d.subsystem, d.command, OptionalText(d.database),
            d.retryAttempts, d.retryInterval, OptionalText(d.outputFileName), d.flags,
            OptionalText(d.proxyName), OptionalText(d.additionalParameters), OptionalText(d.server),
            OptionalText(d.databaseUserName), d.cmdExecSuccessCode, d.osRunPriority)
  }

  function ReAddAction(action: int): int {
    if action == GO_TO_STEP then GO_TO_NEXT_STEP else action
  }

  function ReAddFlow(f: Flow): Flow {
    Flow(ReAddAction(f.onSuccess), 0, ReAddAction(f.onFail), 0)
  }

  /** The first t places of the client's list are as wanted. */
  predicate Settled(current: seq<int>, want: seq<int>, t: nat)
    requires |current| == |want|
  {
    forall i :: 0 <= i < t && i < |want| ==> current[i] == want[i]
  }

  /** The step to move stands strictly past where it has to go. */
  lemma MoveLiesAhead(current: seq<int>, want: seq<int>, target: nat, from: nat)
    requires IsOrder(want, |want|) && |current| == |want|
    requires target < |want| && Settled(current, want, target) && current[target] != want[target]
    requires from < |current| && current[from] == want[target]
    ensures target < from
  {
    assert from < target ==> DifferAt(want, from, target);
  }

  /** A flow with its targets carried through the new order. */
  function Renumber(f: Flow, want: seq<int>): Flow {
    f.(successStep := Position(want, f.successStep), failStep := Position(want, f.failStep))
  }

  // ---- what a reorder means ----

  /** The steps listed in the order `want`, every number in them carried along. */
  ghost function PermutedSteps(steps: seq<Step>, want: seq<int>): (r: seq<Step>)
    requires IsOrder(want, |steps|)
    ensures |r| == |want|
    ensures forall i {:trigger r[i]} :: 0 <= i < |want| ==>
      r[i] == Step(steps[want[i] - 1].def, Renumber(steps[want[i] - 1].flow, want))
  {
    seq(|want|, i requires 0 <= i < |want| =>
      Step(steps[want[i] - 1].def, Renumber(steps[want[i] - 1].flow, want)))
  }

  /** The job in the order `want`, starting at the step it started at. */
  ghost function Permuted(job: Job, want: seq<int>): (r: Job)
    requires IsOrder(want, |job.steps|)
  {
    Job(PermutedSteps(job.steps, want),
        if Position(want, job.start) != 0 then Position(want, job.start) else job.start,
        job.defaultDatabase)
  }

  predicate SameActions(a: Flow, b: Flow) {
    a.onSuccess == b.onSuccess && a.onFail == b.onFail
  }

  /** Equal up to the target numbers their actions ignore. */
  predicate SameFlow(a: Flow, b: Flow) {
    && SameActions(a, b)
    && (a.onSuccess == GO_TO_STEP ==> a.successStep == b.successStep)
    && (a.onFail == GO_TO_STEP ==> a.failStep == b.failStep)
  }

  predicate SameStep(a: Step, b: Step) {
    a.def == b.def && SameFlow(a.flow, b.flow)
  }

  ghost predicate SameJob(a: Job, b: Job) {
    && |a.steps| == |b.steps| && a.start == b.start && a.defaultDatabase == b.defaultDatabase
    && forall i :: 0 <= i < |a.steps| ==> SameStep(a.steps[i], b.steps[i])
  }

  /** The step a number names, by name; none for a number outside the job. */
  function NameAt(job: Job, number: int): Option<string> {
    if 1 <= number <= |job.steps| then Some(job.steps[number - 1].def.name) else None
  }

  /** One step of the new order does what it did and goes where it went. */
  ghost predicate SameStepFlow(before: Job, after: Job, want: seq<int>, i: nat)
    requires IsOrder(want, |before.steps|) && i < |want| == |after.steps|
  {
    var was, now := before.steps[want[i] - 1], after.steps[i];
    && now.def == was.def
    && SameActions(now.flow, was.flow)
    && (was.flow.onSuccess == GO_TO_STEP ==>
          NameAt(after, now.flow.successStep) == NameAt(before, was.flow.successStep))
    && (was.flow.onFail == GO_TO_STEP ==>
          NameAt(after, now.flow.failStep) == NameAt(before, was.flow.failStep))
  }

  /** The same steps, each doing what it did and going where it went, the job
      starting where it started: told by step names alone. */
  ghost predicate SameControlFlow(before: Job, after: Job, want: seq<int>)
    requires IsOrder(want, |before.steps|)
  {
    && |after.steps| == |before.steps|
    && NameAt(after, after.start) == NameAt(before, before.start)
    && forall i :: 0 <= i < |want| ==> SameStepFlow(before, after, want, i)
  }

  // ---- the moves ----

  /** What the server holds after some moves, against the client's list of
      original ids: the same definitions in the same places, and the actions of
      every step that goes to no numbered step. */
  predicate Mirrors(srv: Job, job: Job, current: seq<int>) {
    && IsOrder(current, |job.steps|)
    && |srv.steps| == |current| && srv.start == job.start && srv.defaultDatabase == job.defaultDatabase
    && forall i :: 0 <= i < |current| ==> Kept(job.steps[current[i] - 1], srv.steps[i])
  }

  lemma ReAddRestores(d: Definition, defaultDatabase: string)
    requires d.database != "" || defaultDatabase == ""
    ensures Added(ReAddArgs(d), defaultDatabase) == d
  {
  }

  /** `back` is `srv` after one step was taken out and `added` put in earlier:
      the other steps keep their definitions, and their actions unless those
      went to a numbered step. */
  ghost predicate Shifted(srv: Job, back: Job, from: nat, t: nat, added: Step) {
    && t < from < |srv.steps| && |back.steps| == |srv.steps|
    && back.start == srv.start && back.defaultDatabase == srv.defaultDatabase
    && back.steps[t] == added
    && forall i :: 0 <= i < |srv.steps| && i != t ==>
         Kept(srv.steps[MoveIndex(from, t, i)], back.steps[i])
  }

  predicate Kept(was: Step, now: Step) {
    now.def == was.def && (!was.flow.HasGoTo() ==> SameActions(now.flow, was.flow))
  }

  /** A delete and an insert are accepted, whatever the other steps go to. */
  lemma PairAccepted(srv: Job, from: nat, args: AddArgs, flow: Flow, t: nat) returns (gone: Job, back: Job)
    requires t < from < |srv.steps|
    requires !flow.HasGoTo()
    requires forall k :: 0 <= k < |srv.steps| && k != from ==> srv.steps[k].def.name != args.name
    ensures Exec1(srv, DeleteStep(from + 1)) == Some(gone)
    ensures Exec1(gone, AddStep(args, flow, t + 1)) == Some(back)
    ensures Shifted(srv, back, from, t, Step(Added(args, srv.DefaultDatabase(args.subsystem)), flow))
  {
    gone := Exec1(srv, DeleteStep(from + 1)).value;
    forall i | 0 <= i < |gone.steps| ensures gone.steps[i].def.name != args.name {
      assert gone.steps[i].def == srv.steps[if i < from then i else i + 1].def;
    }
    assert !NameTaken(gone.steps, args.name);
    back := Exec1(gone, AddStep(args, flow, t + 1)).value;
    forall i | 0 <= i < |srv.steps| && i != t
      ensures Kept(srv.steps[MoveIndex(from, t, i)], back.steps[i])
    {
      var was := gone.steps[if i < t then i else i - 1];
      assert back.steps[i] == Step(was.def, AfterInsert(was.flow, t + 1));
    }
  }

  /** ... and keep the client's list in step with the server. */
  lemma ShiftMirrors(srv: Job, back: Job, job: Job, current: seq<int>, from: nat, t: nat, added: Step)
    requires Mirrors(srv, job, current) && Shifted(srv, back, from, t, added)
    requires added.def == job.steps[current[from] - 1].def
    requires SameActions(added.flow, ReAddFlow(job.steps[current[from] - 1].flow))
    ensures Mirrors(back, job, Relocate(current, from, t))
  {
    var next := Relocate(current, from, t);
    RelocateIsOrder(current, |job.steps|, from, t);
    forall i | 0 <= i < |next|
      ensures Kept(job.steps[next[i] - 1], back.steps[i])
    {
      if i != t {
        var k := MoveIndex(from, t, i);
        assert Kept(srv.steps[k], back.steps[i]);
        assert Kept(job.steps[current[k] - 1], srv.steps[k]);
      }
    }
  }

  lemma OthersNamedOtherwise(srv: Job, job: Job, current: seq<int>, from: nat)
    requires job.NamesUnique() && Mirrors(srv, job, current) && from < |current|
    ensures forall k :: 0 <= k < |srv.steps| && k != from ==>
              srv.steps[k].def.name != job.steps[current[from] - 1].def.name
  {
    forall k | 0 <= k < |srv.steps| && k != from
      ensures srv.steps[k].def.name != job.steps[current[from] - 1].def.name
    {
      assert Kept(job.steps[current[k] - 1], srv.steps[k]);
      if current[k] == current[from] { OnePlace(current, |job.steps|, k, from); }
      assert job.NamesDiffer(current[k] - 1, current[from] - 1);
    }
  }

  /** One turn of the loop that moves a step. */
  lemma MoveMirrors(job: Job, before: seq<Stmt>, srv: Job, current: seq<int>, from: nat, t: nat)
    returns (next: Job)
    requires job.NamesUnique() && job.DatabasesSettled()
    requires Exec(job, before) == Some(srv) && Mirrors(srv, job, current)
    requires t < from < |current|
    ensures var s := job.steps[current[from] - 1];
            Exec(job, before + [DeleteStep(from + 1), AddStep(ReAddArgs(s.def), ReAddFlow(s.flow), t + 1)])
              == Some(next)
    ensures Mirrors(next, job, Relocate(current, from, t))
  {
    var s := job.steps[current[from] - 1];
    OthersNamedOtherwise(srv, job, current, from);
    var gone;
    gone, next := PairAccepted(srv, from, ReAddArgs(s.def), ReAddFlow(s.flow), t);
    ReAddRestores(s.def, job.DefaultDatabase(s.def.subsystem));
    ShiftMirrors(srv, next, job, current, from, t,
                 Step(Added(ReAddArgs(s.def), srv.DefaultDatabase(s.def.subsystem)), ReAddFlow(s.flow)));
    ExecPair(job, before, srv, DeleteStep(from + 1), gone,
             AddStep(ReAddArgs(s.def), ReAddFlow(s.flow), t + 1), next);
  }

  lemma JobMirrorsItself(job: Job)
    ensures Mirrors(job, job, Ids(|job.steps|))
  {
    var ids := Ids(|job.steps|);
    IdsIsOrder(|ids|);
    forall i | 0 <= i < |ids| ensures Kept(job.steps[ids[i] - 1], job.steps[i]) {
      assert ids[i] == i + 1;
    }
  }

  /** A delete and the insert that puts the same step back, strictly earlier. */
  predicate IsMove(job: Job, want: seq<int>, t: nat, delete: Stmt, add: Stmt)
    requires IsOrder(want, |job.steps|)
  {
    && delete.DeleteStep? && add.AddStep?
    && 1 <= add.at < delete.at <= |want| && add.at <= t
    && add.args == ReAddArgs(job.steps[want[add.at - 1] - 1].def)
  }

  /** Pairs only, to ever later places, so that no step moves twice. */
  predicate WellPaired(job: Job, want: seq<int>, t: nat, m: seq<Stmt>)
    requires IsOrder(want, |job.steps|)
  {
    && |m| % 2 == 0
    && (forall k :: 0 <= k < |m| / 2 ==> IsMove(job, want, t, m[2 * k], m[2 * k + 1]))
    && (forall k, l :: 0 <= k < l < |m| / 2 ==> Earlier(m[2 * k + 1], m[2 * l + 1]))
  }

  predicate Earlier(a: Stmt, b: Stmt) {
    a.AddStep? && b.AddStep? && a.at < b.at
  }

  lemma PairAdded(job: Job, want: seq<int>, t: nat, m: seq<Stmt>, delete: Stmt, add: Stmt)
    requires IsOrder(want, |job.steps|)
    requires WellPaired(job, want, t, m) && IsMove(job, want, t + 1, delete, add) && add.at == t + 1
    ensures WellPaired(job, want, t + 1, m + [delete, add])
  {
    var r := m + [delete, add];
    forall k | 0 <= k < |r| / 2 ensures IsMove(job, want, t + 1, r[2 * k], r[2 * k + 1]) {
      if k < |m| / 2 { assert IsMove(job, want, t, m[2 * k], m[2 * k + 1]); }
    }
    forall k, l | 0 <= k < l < |r| / 2 ensures Earlier(r[2 * k + 1], r[2 * l + 1]) {
      assert IsMove(job, want, t, m[2 * k], m[2 * k + 1]);
      if l < |m| / 2 { assert Earlier(m[2 * k + 1], m[2 * l + 1]); }
    }
  }

  lemma NoPairAdded(job: Job, want: seq<int>, t: nat, m: seq<Stmt>)
    requires IsOrder(want, |job.steps|) && WellPaired(job, want, t, m)
    ensures WellPaired(job, want, t + 1, m)
  {
    forall k | 0 <= k < |m| / 2 ensures IsMove(job, want, t + 1, m[2 * k], m[2 * k + 1]) {
      assert IsMove(job, want, t, m[2 * k], m[2 * k + 1]);
    }
  }

  // ---- the repairs ----

  lemma RenumberAccepted(f: Flow, want: seq<int>, i: nat)
    requires IsOrder(want, |want|) && i < |want|
    ensures FlowAccepted(Renumber(f, want), i + 1, |want|) <==> FlowAccepted(f, want[i], |want|)
  {
    PositionOf(want, |want|, i);
    PositionInRange(want, |want|, f.successStep);
    PositionInRange(want, |want|, f.failStep);
  }

  /** The server during the repairs: the first i places hold their final flow. */
  predicate Repaired(srv: Job, job: Job, want: seq<int>, i: nat)
    requires IsOrder(want, |job.steps|)
  {
    && Mirrors(srv, job, want)
    && forall k {:trigger srv.steps[k]} :: 0 <= k < i && k < |srv.steps| ==>
         SameFlow(srv.steps[k].flow, Renumber(job.steps[want[k] - 1].flow, want))
  }

  predicate ValidUpTo(job: Job, want: seq<int>, i: nat)
    requires IsOrder(want, |job.steps|)
  {
    forall k :: 0 <= k < i && k < |want| ==>
      FlowAccepted(job.steps[want[k] - 1].flow, want[k], |want|)
  }

  /** One repair is accepted exactly when the references it writes were valid. */
  lemma RepairOne(srv: Job, job: Job, want: seq<int>, i: nat)
    requires IsOrder(want, |job.steps|) && i < |want|
    requires Repaired(srv, job, want, i)
    ensures var flow := job.steps[want[i] - 1].flow;
            var next := Exec1(srv, SetFlow(i + 1, Renumber(flow, want)));
            && (next.Some? <==> FlowAccepted(flow, want[i], |want|))
            && (flow.HasGoTo() && next.Some? ==> Repaired(next.value, job, want, i + 1))
  {
    var flow := job.steps[want[i] - 1].flow;
    RenumberAccepted(flow, want, i);
    var next := Exec1(srv, SetFlow(i + 1, Renumber(flow, want)));
    if flow.HasGoTo() && next.Some? {
      forall k | 0 <= k < |want| ensures Kept(job.steps[want[k] - 1], next.value.steps[k]) {
        assert Kept(job.steps[want[k] - 1], srv.steps[k]);
      }
      forall k | 0 <= k < i + 1
        ensures SameFlow(next.value.steps[k].flow, Renumber(job.steps[want[k] - 1].flow, want))
      {
      }
    }
  }

  lemma NoRepair(srv: Job, job: Job, want: seq<int>, i: nat)
    requires IsOrder(want, |job.steps|) && i < |want| && Repaired(srv, job, want, i)
    requires !job.steps[want[i] - 1].flow.HasGoTo()
    ensures Repaired(srv, job, want, i + 1)
  {
    assert Kept(job.steps[want[i] - 1], srv.steps[i]);
  }

  lemma ValidSplit(job: Job, want: seq<int>, i: nat)
    requires IsOrder(want, |job.steps|) && i < |want|
    ensures ValidUpTo(job, want, i + 1) <==>
              ValidUpTo(job, want, i) && FlowAccepted(job.steps[want[i] - 1].flow, want[i], |want|)
  {
  }

  // ---- the batch ----

  lemma ValidAsPermuted(job: Job, want: seq<int>)
    requires IsOrder(want, |job.steps|)
    ensures ValidUpTo(job, want, |want|) <==> job.GoTosValid()
  {
    if ValidUpTo(job, want, |want|) {
      forall i | 0 <= i < |job.steps| ensures FlowAccepted(job.steps[i].flow, i + 1, |job.steps|) {
        PositionInRange(want, |want|, i + 1);
        assert want[Position(want, i + 1) - 1] == i + 1;
      }
    }
  }

  /** Repaired steps are the permuted steps. */
  lemma RepairedIsPermuted(srv: Job, job: Job, want: seq<int>)
    requires IsOrder(want, |job.steps|) && Repaired(srv, job, want, |want|)
    ensures SameJob(srv.(start := Permuted(job, want).start), Permuted(job, want))
  {
    forall i | 0 <= i < |want| ensures SameStep(srv.steps[i], Permuted(job, want).steps[i]) {
      assert Kept(job.steps[want[i] - 1], srv.steps[i]);
    }
  }

  /** A batch in three parts: the moves, then the repairs, then the start. */
  ghost predicate BatchShape(job: Job, want: seq<int>, stmts: seq<Stmt>)
    requires IsOrder(want, |job.steps|)
  {
    exists m: nat :: m <= |stmts| && MovesThenRepairs(job, want, stmts, m)
  }

  ghost predicate MovesThenRepairs(job: Job, want: seq<int>, stmts: seq<Stmt>, m: nat)
    requires IsOrder(want, |job.steps|) && m <= |stmts|
  {
    && WellPaired(job, want, |want|, stmts[..m])
    && (|want| > 0 ==> m <= 2 * (|want| - 1))
    && (want == Ids(|want|) ==> m == 0)
    && forall k :: m <= k < |stmts| ==> !stmts[k].DeleteStep? && !stmts[k].AddStep?
  }

  /** The loop that compiles the moves, target by target. */
  ghost predicate Compiling(job: Job, want: seq<int>, target: nat, current: seq<int>, stmts: seq<Stmt>, srv: Job)
    requires IsOrder(want, |job.steps|)
  {
    && target <= |want|
    && Exec(job, stmts) == Some(srv)
    && Mirrors(srv, job, current) && Settled(current, want, target)
    && WellPaired(job, want, target, stmts)
    && |stmts| <= 2 * target
    && (target == |want| > 0 ==> |stmts| <= 2 * (target - 1))
    && (stmts == [] ==> current == Ids(|want|))
    && (want == Ids(|want|) ==> stmts == [])
  }

  lemma CompileStarts(job: Job, want: seq<int>)
    requires IsOrder(want, |job.steps|)
    ensures Compiling(job, want, 0, Ids(|job.steps|), [], job)
  {
    JobMirrorsItself(job);
  }

  lemma CompileSkips(job: Job, want: seq<int>, target: nat, current: seq<int>, stmts: seq<Stmt>, srv: Job)
    requires IsOrder(want, |job.steps|) && target < |want|
    requires Compiling(job, want, target, current, stmts, srv) && current[target] == want[target]
    ensures Compiling(job, want, target + 1, current, stmts, srv)
  {
    NoPairAdded(job, want, target, stmts);
  }

  lemma CompileMoves(job: Job, want: seq<int>, target: nat, current: seq<int>, stmts: seq<Stmt>, srv: Job, from: nat)
    returns (next: Job)
    requires job.NamesUnique() && job.DatabasesSettled()
    requires IsOrder(want, |job.steps|) && target < |want|
    requires Compiling(job, want, target, current, stmts, srv) && current[target] != want[target]
    requires from < |want| && current[from] == want[target]
    ensures target < from
    ensures var s := job.steps[want[target] - 1];
            Compiling(job, want, target + 1, InsertAt(RemoveAt(current, from), target, want[target]),
                      stmts + [DeleteStep(from + 1), AddStep(ReAddArgs(s.def), ReAddFlow(s.flow), target + 1)], next)
  {
    MoveLiesAhead(current, want, target, from);
    var s := job.steps[want[target] - 1];
    next := MoveMirrors(job, stmts, srv, current, from, target);
    RelocateIsDeleteInsert(current, from, target);
    PairAdded(job, want, target, stmts, DeleteStep(from + 1), AddStep(ReAddArgs(s.def), ReAddFlow(s.flow), target + 1));
    assert want == Ids(|want|) ==> stmts == [] && current == want;
  }

  /** The moves, and the client's list as they leave it. */
  method MoveStatements(job: Job, want: seq<int>) returns (stmts: seq<Stmt>, current: seq<int>)
    requires job.NamesUnique() && job.DatabasesSettled() && IsOrder(want, |job.steps|)
    ensures current == want && Exec(job, stmts).Some?
    ensures Compiling(job, want, |want|, current, stmts, Exec(job, stmts).value)
  {
    current, stmts := Ids(|job.steps|), [];
    ghost var srv := job;
    CompileStarts(job, want);
    for target := 0 to |want|
      invariant Compiling(job, want, target, current, stmts, srv)
    {
      if current[target] == want[target] {
        CompileSkips(job, want, target, current, stmts, srv);
        continue;
      }
      OrderCovers(current, |want|, want[target]);
      var from := IndexOf(current, want[target]);
      var s := job.steps[want[target] - 1];
      srv := CompileMoves(job, want, target, current, stmts, srv, from);
      stmts := stmts + [DeleteStep(from + 1), AddStep(ReAddArgs(s.def), ReAddFlow(s.flow), target + 1)];
      current := RemoveAt(current, from);
      current := InsertAt(current, target, want[target]);
    }
  }

  /** Where each id ended up, counted from 1. */
  method Positions(current: seq<int>) returns (position: map<int, int>)
    requires IsOrder(current, |current|)
    ensures forall x :: Lookup(position, x) == Position(current, x)
    ensures forall x :: x in position ==> position[x] > 0
  {
    position := map[];
    for i := 0 to |current|
      invariant forall x :: x in position <==> x in current[..i]
      invariant forall k :: 0 <= k < i ==> current[k] in position && position[current[k]] == k + 1
    {
      forall k | 0 <= k < i ensures current[k] != current[i] { assert DifferAt(current, k, i); }
      position := position[current[i] := i + 1];
    }
    assert current[..|current|] == current;
  }

  /** A Go map read: 0 for a missing key. */
  function Lookup(m: map<int, int>, x: int): int {
    if x in m then m[x] else 0
  }

  ghost predicate Repairing(job: Job, want: seq<int>, i: nat, stmts: seq<Stmt>)
    requires IsOrder(want, |job.steps|)
  {
    && i <= |want|
    && (Exec(job, stmts).Some? <==> ValidUpTo(job, want, i))
    && (Exec(job, stmts).Some? ==> Repaired(Exec(job, stmts).value, job, want, i))
  }

  lemma RepairSkips(job: Job, want: seq<int>, i: nat, stmts: seq<Stmt>)
    requires IsOrder(want, |job.steps|) && i < |want|
    requires Repairing(job, want, i, stmts) && !job.steps[want[i] - 1].flow.HasGoTo()
    ensures Repairing(job, want, i + 1, stmts)
  {
    ValidSplit(job, want, i);
    if Exec(job, stmts).Some? { NoRepair(Exec(job, stmts).value, job, want, i); }
  }

  lemma RepairAdds(job: Job, want: seq<int>, i: nat, stmts: seq<Stmt>)
    requires IsOrder(want, |job.steps|) && i < |want|
    requires Repairing(job, want, i, stmts) && job.steps[want[i] - 1].flow.HasGoTo()
    ensures var flow := job.steps[want[i] - 1].flow;
            Repairing(job, want, i + 1, stmts + [SetFlow(i + 1, Renumber(flow, want))])
  {
    ValidSplit(job, want, i);
    ExecSnoc(job, stmts, SetFlow(i + 1, Renumber(job.steps[want[i] - 1].flow, want)));
    if Exec(job, stmts).Some? { RepairOne(Exec(job, stmts).value, job, want, i); }
  }

  /** One turn of the repair loop: nothing, or the step's flow rewritten. */
  function RepairAt(job: Job, want: seq<int>, position: map<int, int>, i: nat): seq<Stmt>
    requires InRange(want, |job.steps|) && i < |want|
  {
    var f := job.steps[want[i] - 1].flow;
    if f.HasGoTo() then
      [SetFlow(Lookup(position, want[i]),
               Flow(f.onSuccess, Lookup(position, f.successStep), f.onFail, Lookup(position, f.failStep)))]
    else []
  }

  lemma RepairTurn(job: Job, want: seq<int>, position: map<int, int>, i: nat, stmts: seq<Stmt>)
    requires IsOrder(want, |job.steps|) && i < |want|
    requires forall x :: Lookup(position, x) == Position(want, x)
    requires Repairing(job, want, i, stmts)
    ensures Repairing(job, want, i + 1, stmts + RepairAt(job, want, position, i))
  {
    if job.steps[want[i] - 1].flow.HasGoTo() {
      RepairAdds(job, want, i, stmts);
      PositionOf(want, |want|, i);
    } else {
      RepairSkips(job, want, i, stmts);
      assert stmts + RepairAt(job, want, position, i) == stmts;
    }
  }

  /** What the repair loop keeps. */
  ghost predicate RepairLoop(job: Job, want: seq<int>, i: nat, moves: seq<Stmt>, stmts: seq<Stmt>)
    requires IsOrder(want, |job.steps|)
  {
    Repairing(job, want, i, stmts) && OnlyFlowsAfter(moves, stmts)
  }

  lemma RepairLoopTurn(job: Job, want: seq<int>, position: map<int, int>, i: nat, moves: seq<Stmt>, stmts: seq<Stmt>)
    requires IsOrder(want, |job.steps|) && i < |want|
    requires forall x :: Lookup(position, x) == Position(want, x)
    requires RepairLoop(job, want, i, moves, stmts)
    ensures RepairLoop(job, want, i + 1, moves, stmts + RepairAt(job, want, position, i))
  {
    RepairTurn(job, want, position, i, stmts);
  }

  ghost predicate OnlyFlowsAfter(moves: seq<Stmt>, stmts: seq<Stmt>) {
    |moves| <= |stmts|
    && forall k :: 0 <= k < |stmts| ==> if k < |moves| then stmts[k] == moves[k] else stmts[k].SetFlow?
  }

  /** The repairs, after the moves. */
  method RepairStatements(job: Job, want: seq<int>, moves: seq<Stmt>, position: map<int, int>)
    returns (stmts: seq<Stmt>)
    requires IsOrder(want, |job.steps|) && Repairing(job, want, 0, moves)
    requires forall x :: Lookup(position, x) == Position(want, x)
    ensures RepairLoop(job, want, |want|, moves, stmts)
  {
    stmts := moves;
    for i := 0 to |want|
      invariant RepairLoop(job, want, i, moves, stmts)
    {
      RepairLoopTurn(job, want, position, i, moves, stmts);
      stmts := stmts + RepairAt(job, want, position, i);
    }
  }

  function StartRepair(start: int, position: map<int, int>): seq<Stmt> {
    if start in position && position[start] != start then [SetStart(position[start])] else []
  }

  /** The start step's repair moves the start with the step it names. */
  lemma StartMoves(srv: Job, job: Job, want: seq<int>, to: nat) returns (next: Job)
    requires IsOrder(want, |job.steps|) && Repaired(srv, job, want, |want|)
    requires to == Position(want, job.start) && to != 0
    ensures Exec1(srv, SetStart(to)) == Some(next) && SameJob(next, Permuted(job, want))
  {
    next := srv.(start := to);
    RepairedIsPermuted(srv, job, want);
  }

  lemma StartStays(srv: Job, job: Job, want: seq<int>, to: nat)
    requires IsOrder(want, |job.steps|) && Repaired(srv, job, want, |want|)
    requires to == Position(want, job.start) && (to == 0 || to == job.start)
    ensures SameJob(srv, Permuted(job, want))
  {
    assert srv == srv.(start := Permuted(job, want).start);
    RepairedIsPermuted(srv, job, want);
  }

  lemma StartRepaired(job: Job, stmts: seq<Stmt>, want: seq<int>, position: map<int, int>)
    requires IsOrder(want, |job.steps|) && Repairing(job, want, |want|, stmts)
    requires Lookup(position, job.start) == Position(want, job.start)
    requires job.start in position ==> position[job.start] > 0
    ensures var done := Exec(job, stmts + StartRepair(job.start, position));
            && (done.Some? <==> Exec(job, stmts).Some?)
            && (done.Some? ==> SameJob(done.value, Permuted(job, want)))
  {
    var to := Position(want, job.start);
    var srv := Exec(job, stmts);
    if StartRepair(job.start, position) == [] {
      assert stmts + StartRepair(job.start, position) == stmts;
      if srv.Some? { StartStays(srv.value, job, want, to); }
    } else {
      ExecSnoc(job, stmts, SetStart(to));
      if srv.Some? { var next := StartMoves(srv.value, job, want, to); }
    }
  }

  /** Compiles an order into its batch: accepted exactly when every "go to step
      N" of the job named another step of it, and then the job comes out in the
      order asked for. */
  method BuildBatch(job: Job, want: seq<int>) returns (stmts: seq<Stmt>)
    requires job.NamesUnique() && job.DatabasesSettled() && IsOrder(want, |job.steps|)
    ensures Exec(job, stmts).Some? <==> job.GoTosValid()
    ensures job.GoTosValid() ==> SameJob(Exec(job, stmts).value, Permuted(job, want))
    ensures BatchShape(job, want, stmts)
  {
    var moves, current := MoveStatements(job, want);
    ghost var srv := Exec(job, moves).value;
    var position := Positions(current);
    stmts := RepairStatements(job, want, moves, position);
    if stmts == [] {
      NothingToDo(job, want);
      ShapeOf(job, want, moves, current, srv, [], []);
      return;
    }
    ValidAsPermuted(job, want);
    StartRepaired(job, stmts, want, position);
    ShapeOf(job, want, moves, current, srv, stmts, StartRepair(job.start, position));
    stmts := stmts + StartRepair(job.start, position);
  }

  lemma ShapeOf(job: Job, want: seq<int>, moves: seq<Stmt>, current: seq<int>, srv: Job,
                stmts: seq<Stmt>, start: seq<Stmt>)
    requires IsOrder(want, |job.steps|) && Compiling(job, want, |want|, current, moves, srv)
    requires OnlyFlowsAfter(moves, stmts) && forall k :: 0 <= k < |start| ==> start[k].SetStart?
    ensures BatchShape(job, want, stmts + start)
  {
    assert (stmts + start)[..|moves|] == moves;
    assert MovesThenRepairs(job, want, stmts + start, |moves|);
  }

  lemma NothingToDo(job: Job, want: seq<int>)
    requires want == Ids(|job.steps|) && IsOrder(want, |job.steps|)
    requires Repairing(job, want, |want|, [])
    ensures job.GoTosValid() && SameJob(job, Permuted(job, want))
  {
    ValidAsPermuted(job, want);
    PositionInIds(|want|, job.start);
    RepairedIsPermuted(job, job, want);
  }

  // ---- what the server's own renumbering does to the control flow ----

  /** An end of a step after the server renumbered the job: a numbered goto follows
      the step it named, one that named the deleted step quits instead, and any
      other action is left alone. */
  predicate Followed(before: Job, after: Job, deleted: int, quit: int, was: (int, int), now: (int, int)) {
    if was.0 != 4 then now == was
    else if was.1 == deleted then now.0 == quit
    else now.0 == 4 && NameAt(after, now.1) == NameAt(before, was.1)
  }

  /** Deleting a step takes no other step's place but its number, and makes every
      goto that named it report success or failure. */
  lemma DeleteFollows(j: Job, at: int, x: int)
    requires 1 <= at <= |j.steps| && 1 <= x <= |j.steps| && x != at
    requires FlowAccepted(j.steps[x - 1].flow, x, |j.steps|)
    ensures var after, was := Exec1(j, DeleteStep(at)), j.steps[x - 1];
      && after.Some? && |after.value.steps| == |j.steps| - 1 && after.value.start == j.start
      && var now := after.value.steps[if x < at then x - 1 else x - 2];
         && now.def == was.def
         && Followed(j, after.value, at, 1, (was.flow.onSuccess, was.flow.successStep),
                      (now.flow.onSuccess, now.flow.successStep))
         && Followed(j, after.value, at, 2, (was.flow.onFail, was.flow.failStep),
                      (now.flow.onFail, now.flow.failStep))
  {
  }

  /** Inserting a step leaves every goto at the step it named. */
  lemma InsertFollows(j: Job, args: AddArgs, flow: Flow, at: int, x: int)
    requires 1 <= at <= |j.steps| + 1 && !NameTaken(j.steps, args.name) && FlowAccepted(flow, at, |j.steps| + 1)
    requires 1 <= x <= |j.steps| && FlowAccepted(j.steps[x - 1].flow, x, |j.steps|)
    ensures var after, was := Exec1(j, AddStep(args, flow, at)), j.steps[x - 1];
      && after.Some? && |after.value.steps| == |j.steps| + 1 && after.value.start == j.start
      && after.value.steps[at - 1].flow == flow && after.value.steps[at - 1].def.name == args.name
      && var now := after.value.steps[if x < at then x - 1 else x];
         && now.def == was.def
         && Followed(j, after.value, 0, 1, (was.flow.onSuccess, was.flow.successStep),
                      (now.flow.onSuccess, now.flow.successStep))
         && Followed(j, after.value, 0, 2, (was.flow.onFail, was.flow.failStep),
                      (now.flow.onFail, now.flow.failStep))
  {
  }

  /** A step goes back with its gotos as "go to the next step", which the server takes
      at any place of any job. */
  lemma ReAddedIsTaken(f: Flow, at: int, n: int)
    ensures FlowAccepted(ReAddFlow(f), at, n)
    ensures ReAddFlow(f).onSuccess == if f.onSuccess == 4 then 3 else f.onSuccess
    ensures ReAddFlow(f).onFail == if f.onFail == 4 then 3 else f.onFail
  {
  }
}
