/**
 SQL Server Agent's store for one job, as the client meets it: a sequence of
 steps numbered from 1, a start step number, and four procedures that change
 them. The procedures' side effects on "go to step N" references are the ones
 the client is written around.
 */
module Msdb {
  import opened Wrappers
  import opened Permutations

  const QUIT_WITH_SUCCESS := 1
  const QUIT_WITH_FAILURE := 2
  const GO_TO_NEXT_STEP := 3
  const GO_TO_STEP := 4

  /** Every column of a step but its number and its flow. An empty text is an
      unset column. */
  datatype Definition = Definition(
    name: string, subsystem: string, command: string, database: string,
    retryAttempts: int, retryInterval: int, outputFileName: string, flags: int,
    proxyName: string, additionalParameters: string, server: string,
    databaseUserName: string, cmdExecSuccessCode: int, osRunPriority: int)

  /** What happens after a step: the target is read only where the action is
      GO_TO_STEP. */
  datatype Flow = Flow(onSuccess: int, successStep: int, onFail: int, failStep: int) {
    predicate HasGoTo() { onSuccess == GO_TO_STEP || onFail == GO_TO_STEP }
  }

  datatype Step = Step(def: Definition, flow: Flow)

  /** defaultDatabase is what sp_add_jobstep fills in for a subsystem when
      @database_name is omitted; a subsystem it lacks gets none. */
  datatype Job = Job(steps: seq<Step>, start: int, defaultDatabase: map<string, string>) {
    predicate NamesUnique() {
      forall i, j :: 0 <= i < |steps| && 0 <= j < |steps| && i != j ==> NamesDiffer(i, j)
    }

    predicate NamesDiffer(i: nat, j: nat)
      requires i < |steps| && j < |steps|
    {
      steps[i].def.name != steps[j].def.name
    }

    /** A step stored without a database is one the server gives none. */
    predicate DatabasesSettled() {
      forall i :: 0 <= i < |steps| ==>
        steps[i].def.database != "" || DefaultDatabase(steps[i].def.subsystem) == ""
    }

    function DefaultDatabase(subsystem: string): string {
      if subsystem in defaultDatabase then defaultDatabase[subsystem] else ""
    }

    /** Every "go to step N" names a step of the job other than its own. */
    predicate GoTosValid() {
      forall i :: 0 <= i < |steps| ==> FlowAccepted(steps[i].flow, i + 1, |steps|)
    }
  }

  /** sp_add_jobstep's parameters; None is a parameter left out. */
  datatype AddArgs = AddArgs(
    name: string, subsystem: string, command: string, database: Option<string>,
    retryAttempts: int, retryInterval: int, outputFileName: Option<string>, flags: int,
    proxyName: Option<string>, additionalParameters: Option<string>, server: Option<string>,
    databaseUserName: Option<string>, cmdExecSuccessCode: int, osRunPriority: int)

  datatype Stmt =
    | DeleteStep(at: int)
    | AddStep(args: AddArgs, flow: Flow, at: int)
    | SetFlow(at: int, flow: Flow)
    | SetStart(to: int)

  /** sp_verify_jobstep: a step may not go to itself, nor outside the job. */
  predicate GoToAccepted(action: int, target: int, self: int, n: int) {
    action == GO_TO_STEP ==> 1 <= target <= n && target != self
  }

  predicate FlowAccepted(f: Flow, self: int, n: int) {
    && GoToAccepted(f.onSuccess, f.successStep, self, n)
    && GoToAccepted(f.onFail, f.failStep, self, n)
  }

  /** sp_delete_jobstep: a reference past the deleted step follows its step, one
      to the deleted step becomes "quit". */
  function AfterDelete(f: Flow, at: int): Flow {
    Flow(
      if f.onSuccess == GO_TO_STEP && f.successStep == at then QUIT_WITH_SUCCESS else f.onSuccess,
      if f.onSuccess != GO_TO_STEP then f.successStep
      else if f.successStep == at then 0
      else if f.successStep > at then f.successStep - 1 else f.successStep,
      if f.onFail == GO_TO_STEP && f.failStep == at then QUIT_WITH_FAILURE else f.onFail,
      if f.onFail != GO_TO_STEP then f.failStep
      else if f.failStep == at then 0
      else if f.failStep > at then f.failStep - 1 else f.failStep)
  }

  /** sp_add_jobstep at a position: every reference follows its step. */
  function AfterInsert(f: Flow, at: int): Flow {
    f.(successStep := if f.onSuccess == GO_TO_STEP && f.successStep >= at then f.successStep + 1 else f.successStep,
       failStep := if f.onFail == GO_TO_STEP && f.failStep >= at then f.failStep + 1 else f.failStep)
  }

  /** The steps left once the one numbered `at` is gone. */
  function Without(steps: seq<Step>, at: int): (r: seq<Step>)
    requires 1 <= at <= |steps|
    ensures |r| == |steps| - 1
    ensures forall i :: 0 <= i < |r| ==>
      var was := steps[if i < at - 1 then i else i + 1];
      r[i] == Step(was.def, AfterDelete(was.flow, at))
  {
    seq(|steps| - 1, i requires 0 <= i < |steps| - 1 =>
      var was := steps[if i < at - 1 then i else i + 1];
      Step(was.def, AfterDelete(was.flow, at)))
  }

  /** The steps with a new one numbered `at`. */
  function With(steps: seq<Step>, at: int, added: Step): (r: seq<Step>)
    requires 1 <= at <= |steps| + 1
    ensures |r| == |steps| + 1 && r[at - 1] == added
    ensures forall i :: 0 <= i < |r| && i != at - 1 ==>
      var was := steps[if i < at - 1 then i else i - 1];
      r[i] == Step(was.def, AfterInsert(was.flow, at))
  {
    seq(|steps| + 1, i requires 0 <= i < |steps| + 1 =>
      if i == at - 1 then added
      else
        var was := steps[if i < at - 1 then i else i - 1];
        Step(was.def, AfterInsert(was.flow, at)))
  }

  function TextOr(o: Option<string>, default: string): string {
    match o case None => default case Some(t) => t
  }

  /** The row sp_add_jobstep creates. */
  function Added(args: AddArgs, defaultDatabase: string): Definition {
    Definition(args.name, args.subsystem, args.command, TextOr(args.database, defaultDatabase),
               args.retryAttempts, args.retryInterval, TextOr(args.outputFileName, ""), args.flags,
               TextOr(args.proxyName, ""), TextOr(args.additionalParameters, ""), TextOr(args.server, ""),
               TextOr(args.databaseUserName, ""), args.cmdExecSuccessCode, args.osRunPriority)
  }

  predicate NameTaken(steps: seq<Step>, name: string) {
    exists i :: 0 <= i < |steps| && steps[i].def.name == name
  }

  /** One procedure call; None is a refusal. */
  function Exec1(j: Job, s: Stmt): Option<Job> {
    var n := |j.steps|;
    match s
    case DeleteStep(at) =>
      if 1 <= at <= n then Some(j.(steps := Without(j.steps, at))) else None
    case AddStep(args, flow, at) =>
      if 1 <= at <= n + 1 && !NameTaken(j.steps, args.name) && FlowAccepted(flow, at, n + 1) then
        var added := Step(Added(args, j.DefaultDatabase(args.subsystem)), flow);
        Some(j.(steps := With(j.steps, at, added)))
      else None
    case SetFlow(at, flow) =>
      if 1 <= at <= n && FlowAccepted(flow, at, n) then
        Some(j.(steps := j.steps[at - 1 := j.steps[at - 1].(flow := flow)]))
      else None
    case SetStart(to) =>
      if 1 <= to <= n then Some(j.(start := to)) else None
  }

  /** A batch, stopped by its first refusal. */
  function Exec(j: Job, stmts: seq<Stmt>): Option<Job>
    decreases |stmts|
  {
    if stmts == [] then Some(j)
    else match Exec1(j, stmts[0])
      case None => None
      case Some(next) => Exec(next, stmts[1..])
  }

  lemma {:induction false} ExecAppend(j: Job, a: seq<Stmt>, b: seq<Stmt>)
    ensures Exec(j, a + b) == match Exec(j, a) case None => None case Some(mid) => Exec(mid, b)
    decreases |a|
  {
    if a == [] {
      assert a + b == b;
    } else {
      assert (a + b)[1..] == a[1..] + b;
      if Exec1(j, a[0]).Some? { ExecAppend(Exec1(j, a[0]).value, a[1..], b); }
    }
  }

  lemma ExecSnoc(j: Job, a: seq<Stmt>, s: Stmt)
    ensures Exec(j, a + [s]) == match Exec(j, a) case None => None case Some(mid) => Exec1(mid, s)
  {
    ExecAppend(j, a, [s]);
    if Exec(j, a).Some? {
      var mid := Exec(j, a).value;
      if Exec1(mid, s).Some? {
        assert [s][1..] == [];
        assert Exec(Exec1(mid, s).value, []) == Exec1(mid, s);
      }
    }
  }

  lemma ExecPair(j: Job, before: seq<Stmt>, mid: Job, first: Stmt, gone: Job, second: Stmt, back: Job)
    requires Exec(j, before) == Some(mid)
    requires Exec1(mid, first) == Some(gone) && Exec1(gone, second) == Some(back)
    ensures Exec(j, before + [first, second]) == Some(back)
  {
    ExecSnoc(j, before, first);
    ExecSnoc(j, before + [first], second);
    assert before + [first, second] == before + [first] + [second];
  }
}
