/**
 ReorderSteps and MoveStep on a stored job, and what reorders mean: control
 flow kept, orders composed, a move undone.
 */
module JobReorder {
  import opened Wrappers
  import opened Permutations
  import opened Msdb
  import opened AgentJobStep

  // ---- the requested order ----

  datatype OrderError = WrongLength | OutsideRange(id: int) | Repeated(id: int)

  /** Accepts exactly the rearrangements of 1..n, and says what is wrong with any
      other list. */
  method CheckReorder(want: seq<int>, n: nat) returns (r: Result<(), OrderError>)
    ensures r.Ok? <==> multiset(want) == multiset(Ids(n))
    ensures r.Ok? <==> IsOrder(want, n)
    ensures r.Err? && r.error.WrongLength? ==> |want| != n
    ensures r.Err? && r.error.OutsideRange? ==> r.error.id in want && !(1 <= r.error.id <= n)
    ensures r.Err? && r.error.Repeated? ==> multiset(want)[r.error.id] >= 2
  {
    OrderIffRearrangement(want, n);
    if |want| != n { return Err(WrongLength); }
    var seen: map<int, bool> := map[];
    for i := 0 to |want|
      invariant forall x :: x in seen <==> x in want[..i]
      invariant InRange(want[..i], n)
      invariant forall a, b :: 0 <= a < b < i ==> DifferAt(want, a, b)
    {
      var id := want[i];
      if id < 1 || id > n { return Err(OutsideRange(id)); }
      if id in seen {
        var a :| 0 <= a < i && want[..i][a] == id;
        RepeatCounts(want, a, i);
        assert !DifferAt(want, a, i);
        return Err(Repeated(id));
      }
      seen := seen[id := true];
      assert want[..i + 1] == want[..i] + [id];
    }
    assert want[..|want|] == want;
    return Ok(());
  }

  /** The ids 1..n but one, in ascending order. */
  function Others(n: nat, stepId: int): (r: seq<int>)
    ensures forall i :: 0 <= i < |r| ==> r[i] == if 1 <= stepId <= i + 1 then i + 2 else i + 1
    ensures |r| == if 1 <= stepId <= n then n - 1 else n
  {
    if n == 0 then [] else Others(n - 1, stepId) + (if n != stepId then [n] else [])
  }

  function Clamp(x: int, low: int, high: int): int {
    if x < low then low else if x > high then high else x
  }

  /** The order in which one step has moved. */
  function MoveOrder(stepId: int, newStepId: int, n: nat): seq<int> {
    var others := Others(n, stepId);
    InsertAt(others, Clamp(newStepId - 1, 0, |others|), stepId)
  }

  method BuildMoveOrder(stepId: int, newStepId: int, n: nat) returns (order: seq<int>)
    ensures order == MoveOrder(stepId, newStepId, n)
  {
    order := [];
    for id := 1 to n + 1
      invariant order == Others(id - 1, stepId)
    {
      if id != stepId { order := order + [id]; }
    }
    var at := if newStepId - 1 < 0 then 0 else newStepId - 1;
    at := if at > |order| then |order| else at;
    order := InsertAt(order, at, stepId);
  }

  /** A move is an order of the job exactly when it names a step of the job. */
  lemma MoveOrderAccepted(stepId: int, newStepId: int, n: nat)
    ensures IsOrder(MoveOrder(stepId, newStepId, n), n) <==> 1 <= stepId <= n
  {
    var order := MoveOrder(stepId, newStepId, n);
    if 1 <= stepId <= n {
      forall i, j | 0 <= i < j < |order| ensures DifferAt(order, i, j) { }
    }
  }

  /** The order a move asks for, place by place. */
  lemma MoveOrderAt(stepId: int, newStepId: int, n: nat, i: nat)
    requires 1 <= stepId <= n && i < n
    ensures |MoveOrder(stepId, newStepId, n)| == n
    ensures var at := Clamp(newStepId, 1, n) - 1;
            var k := if i <= at then i + 1 else i;
            MoveOrder(stepId, newStepId, n)[i] ==
              if i == at then stepId else if k < stepId then k else k + 1
  {
  }

  /** It puts that step at the place asked for, clamped to the job, and leaves
      the others in their order. */
  lemma MoveOrderPlaces(stepId: int, newStepId: int, n: nat, i: nat, j: nat)
    requires 1 <= stepId <= n && i < j < n
    ensures var order, at := MoveOrder(stepId, newStepId, n), Clamp(newStepId, 1, n) - 1;
            && |order| == n && order[at] == stepId
            && (i != at && j != at ==> order[i] < order[j])
  {
    MoveOrderAt(stepId, newStepId, n, Clamp(newStepId, 1, n) - 1);
    MoveOrderAt(stepId, newStepId, n, i);
    MoveOrderAt(stepId, newStepId, n, j);
  }

  lemma MoveBackAt(a: int, b: int, n: nat, i: nat)
    requires 1 <= a <= n && 1 <= b <= n && i < n
    ensures |MoveOrder(a, b, n)| == n && |MoveOrder(b, a, n)| == n
    ensures 1 <= MoveOrder(b, a, n)[i] <= n
    ensures MoveOrder(a, b, n)[MoveOrder(b, a, n)[i] - 1] == i + 1
  {
    MoveOrderAt(b, a, n, i);
    MoveOrderAt(a, b, n, MoveOrder(b, a, n)[i] - 1);
  }

  /** Moving a step and moving it back. */
  lemma MoveBack(a: int, b: int, n: nat)
    requires 1 <= a <= n && 1 <= b <= n
    ensures IsOrder(MoveOrder(a, b, n), n) && IsOrder(MoveOrder(b, a, n), n)
    ensures Compose(MoveOrder(a, b, n), MoveOrder(b, a, n)) == Ids(n)
  {
    MoveOrderAccepted(a, b, n);
    MoveOrderAccepted(b, a, n);
    var both := Compose(MoveOrder(a, b, n), MoveOrder(b, a, n));
    forall i | 0 <= i < n ensures both[i] == Ids(n)[i] {
      MoveBackAt(a, b, n, i);
    }
  }

  // ---- what the reordered job keeps ----

  /** A reordered job is again one the server could hold. */
  lemma PermutedStaysValid(job: Job, want: seq<int>)
    requires IsOrder(want, |job.steps|)
    ensures job.NamesUnique() ==> Permuted(job, want).NamesUnique()
    ensures job.DatabasesSettled() ==> Permuted(job, want).DatabasesSettled()
    ensures job.GoTosValid() ==> Permuted(job, want).GoTosValid()
  {
    var after := Permuted(job, want);
    if job.NamesUnique() {
      forall i, j | 0 <= i < |want| && 0 <= j < |want| && i != j ensures after.NamesDiffer(i, j) {
        if want[i] == want[j] { OnePlace(want, |want|, i, j); }
        assert job.NamesDiffer(want[i] - 1, want[j] - 1);
      }
    }
    if job.GoTosValid() {
      forall i | 0 <= i < |want| ensures FlowAccepted(after.steps[i].flow, i + 1, |want|) {
        RenumberAccepted(job.steps[want[i] - 1].flow, want, i);
      }
    }
  }

  /** ... and so is any job equal to it up to ignored numbers. */
  lemma SameJobStaysValid(a: Job, b: Job)
    requires SameJob(a, b)
    ensures b.NamesUnique() ==> a.NamesUnique()
    ensures b.DatabasesSettled() ==> a.DatabasesSettled()
    ensures b.GoTosValid() ==> a.GoTosValid()
  {
    if b.NamesUnique() {
      forall i, j | 0 <= i < |a.steps| && 0 <= j < |a.steps| && i != j ensures a.NamesDiffer(i, j) {
        assert b.NamesDiffer(i, j);
      }
    }
  }

  lemma NameAtPlace(job: Job, after: Job, want: seq<int>, i: nat)
    requires IsOrder(want, |job.steps|) && i < |want|
    requires SameJob(after, Permuted(job, want))
    ensures NameAt(after, i + 1) == NameAt(job, want[i])
  {
    assert SameStep(after.steps[i], PermutedSteps(job.steps, want)[i]);
  }

  lemma NameAtPosition(job: Job, after: Job, want: seq<int>, x: int)
    requires IsOrder(want, |job.steps|) && 1 <= x <= |want|
    requires SameJob(after, Permuted(job, want))
    ensures NameAt(after, Position(want, x)) == NameAt(job, x)
  {
    PositionInRange(want, |want|, x);
    NameAtPlace(job, after, want, Position(want, x) - 1);
  }

  /** The reordered job has the control flow of the old one. */
  lemma ReorderKeepsFlow(job: Job, after: Job, want: seq<int>)
    requires IsOrder(want, |job.steps|) && job.GoTosValid()
    requires SameJob(after, Permuted(job, want))
    ensures SameControlFlow(job, after, want)
  {
    PositionInRange(want, |want|, job.start);
    if 1 <= job.start <= |want| { NameAtPosition(job, after, want, job.start); }
    forall i | 0 <= i < |want| ensures SameStepFlow(job, after, want, i) {
      var flow := job.steps[want[i] - 1].flow;
      assert FlowAccepted(flow, want[i], |want|);
      if flow.onSuccess == GO_TO_STEP { NameAtPosition(job, after, want, flow.successStep); }
      if flow.onFail == GO_TO_STEP { NameAtPosition(job, after, want, flow.failStep); }
    }
  }

  /** Told by old number: the step that was x still does what it did, and where its
      action is 4, goes to the step it went to. */
  lemma GoToStepFollows(job: Job, after: Job, want: seq<int>, x: int)
    requires IsOrder(want, |job.steps|) && job.GoTosValid() && 1 <= x <= |want|
    requires SameJob(after, Permuted(job, want))
    ensures 1 <= Position(want, x) <= |after.steps|
    ensures var was, now := job.steps[x - 1], after.steps[Position(want, x) - 1];
      && now.def == was.def
      && now.flow.onSuccess == was.flow.onSuccess && now.flow.onFail == was.flow.onFail
      && (was.flow.onSuccess == 4 ==> NameAt(after, now.flow.successStep) == NameAt(job, was.flow.successStep))
      && (was.flow.onFail == 4 ==> NameAt(after, now.flow.failStep) == NameAt(job, was.flow.failStep))
  {
    ReorderKeepsFlow(job, after, want);
    PositionInRange(want, |want|, x);
    assert SameStepFlow(job, after, want, Position(want, x) - 1);
  }

  lemma NameFindsPosition(job: Job, after: Job, want: seq<int>, x: int, y: int)
    requires job.NamesUnique() && IsOrder(want, |job.steps|) && 1 <= x <= |want|
    requires SameControlFlow(job, after, want) && NameAt(after, y) == NameAt(job, x)
    ensures y == Position(want, x)
  {
    PositionInRange(want, |want|, x);
    assert SameStepFlow(job, after, want, y - 1);
    assert want[y - 1] != x ==> job.NamesDiffer(want[y - 1] - 1, x - 1);
    PositionOf(want, |want|, y - 1);
  }

  /** ... and is the only job that does, for a job that starts at one of its
      steps: the names settle every number. */
  lemma FlowSettlesReorder(job: Job, after: Job, want: seq<int>)
    requires job.NamesUnique() && job.GoTosValid() && IsOrder(want, |job.steps|)
    requires 1 <= job.start <= |job.steps|
    requires after.defaultDatabase == job.defaultDatabase
    ensures SameControlFlow(job, after, want) <==> SameJob(after, Permuted(job, want))
  {
    if SameJob(after, Permuted(job, want)) { ReorderKeepsFlow(job, after, want); }
    if SameControlFlow(job, after, want) {
      NameFindsPosition(job, after, want, job.start, after.start);
      forall i | 0 <= i < |want| ensures SameStep(after.steps[i], Permuted(job, want).steps[i]) {
        assert SameStepFlow(job, after, want, i);
        var was, now := job.steps[want[i] - 1].flow, after.steps[i].flow;
        assert FlowAccepted(was, want[i], |want|);
        if was.onSuccess == GO_TO_STEP { NameFindsPosition(job, after, want, was.successStep, now.successStep); }
        if was.onFail == GO_TO_STEP { NameFindsPosition(job, after, want, was.failStep, now.failStep); }
      }
    }
  }

  // ---- reorders in sequence ----

  lemma PermutedRespects(a: Job, b: Job, want: seq<int>)
    requires SameJob(a, b) && IsOrder(want, |a.steps|)
    ensures SameJob(Permuted(a, want), Permuted(b, want))
  {
    forall i | 0 <= i < |want| ensures SameStep(Permuted(a, want).steps[i], Permuted(b, want).steps[i]) {
      assert SameStep(a.steps[want[i] - 1], b.steps[want[i] - 1]);
    }
  }

  lemma RenumberTwice(f: Flow, first: seq<int>, second: seq<int>, n: nat)
    requires IsOrder(first, n) && IsOrder(second, n)
    ensures Renumber(Renumber(f, first), second) == Renumber(f, Compose(first, second))
  {
    PositionOfCompose(first, second, n, f.successStep);
    PositionOfCompose(first, second, n, f.failStep);
  }

  lemma StartTwice(job: Job, first: seq<int>, second: seq<int>)
    requires IsOrder(first, |job.steps|) && IsOrder(second, |job.steps|)
    requires IsOrder(Compose(first, second), |job.steps|)
    ensures Permuted(Permuted(job, first), second).start == Permuted(job, Compose(first, second)).start
  {
    var n := |job.steps|;
    PositionInRange(first, n, job.start);
    PositionInRange(second, n, job.start);
    PositionInRange(second, n, Position(first, job.start));
    PositionOfCompose(first, second, n, job.start);
  }

  lemma StepTwice(job: Job, first: seq<int>, second: seq<int>, i: nat)
    requires IsOrder(first, |job.steps|) && IsOrder(second, |job.steps|)
    requires IsOrder(Compose(first, second), |job.steps|) && i < |second|
    ensures Permuted(Permuted(job, first), second).steps[i] == Permuted(job, Compose(first, second)).steps[i]
  {
    assert Compose(first, second)[i] == first[second[i] - 1];
    RenumberTwice(job.steps[first[second[i] - 1] - 1].flow, first, second, |job.steps|);
  }

  /** Two reorders are one, by the composed order. */
  lemma PermutedCompose(job: Job, first: seq<int>, second: seq<int>)
    requires IsOrder(first, |job.steps|) && IsOrder(second, |job.steps|)
    ensures IsOrder(Compose(first, second), |job.steps|)
    ensures SameJob(Permuted(Permuted(job, first), second), Permuted(job, Compose(first, second)))
  {
    ComposeIsOrder(first, second, |job.steps|);
    StartTwice(job, first, second);
    var twice, once := Permuted(Permuted(job, first), second), Permuted(job, Compose(first, second));
    forall i | 0 <= i < |second| ensures SameStep(twice.steps[i], once.steps[i]) {
      StepTwice(job, first, second, i);
    }
  }

  lemma RenumberByIds(f: Flow, self: int, n: nat)
    requires FlowAccepted(f, self, n)
    ensures SameFlow(Renumber(f, Ids(n)), f)
  {
    PositionInIds(n, f.successStep);
    PositionInIds(n, f.failStep);
  }

  lemma PermutedByIds(job: Job)
    requires job.GoTosValid()
    ensures IsOrder(Ids(|job.steps|), |job.steps|)
    ensures SameJob(Permuted(job, Ids(|job.steps|)), job)
  {
    var n := |job.steps|;
    IdsIsOrder(n);
    PositionInIds(n, job.start);
    forall i | 0 <= i < n ensures SameStep(Permuted(job, Ids(n)).steps[i], job.steps[i]) {
      assert FlowAccepted(job.steps[i].flow, i + 1, n);
      RenumberByIds(job.steps[i].flow, i + 1, n);
      assert Ids(n)[i] == i + 1;
    }
  }

  // ---- the operations ----

  datatype ReorderError = BadOrder(why: OrderError) | RefusedByServer

  class AgentJob {
    /** The job as msdb stores it. */
    var stored: Job

    constructor (job: Job)
      ensures stored == job
    {
      stored := job;
    }

    /** One transactional batch: statement by statement on a copy, which replaces
        the job only if none is refused. */
    method Execute(stmts: seq<Stmt>) returns (ok: bool)
      modifies this
      ensures ok <==> Exec(old(stored), stmts).Some?
      ensures ok ==> Exec(old(stored), stmts) == Some(stored)
      ensures !ok ==> stored == old(stored)
    {
      var work := stored;
      for i := 0 to |stmts|
        invariant stored == old(stored)
        invariant Exec(work, stmts[i..]) == Exec(stored, stmts)
      {
        assert stmts[i..][1..] == stmts[i + 1..];
        var next := Exec1(work, stmts[i]);
        if next.None? { return false; }
        work := next.value;
      }
      stored := work;
      return true;
    }

    /** The order asked for, or the job as it was. */
    method ReorderSteps(order: nat -> seq<int>) returns (r: Result<(), ReorderError>)
      requires stored.NamesUnique() && stored.DatabasesSettled()
      modifies this
      ensures var want, n := order(|old(stored).steps|), |old(stored).steps|;
        && (r.Ok? <==> IsOrder(want, n) && old(stored).GoTosValid())
        && (r.Err? ==> stored == old(stored) && (r.error.BadOrder? <==> !IsOrder(want, n)))
        && (r.Ok? ==> SameJob(stored, Permuted(old(stored), want))
                      && SameControlFlow(old(stored), stored, want))
    {
      var n := |stored.steps|;
      var want := order(n);
      var check := CheckReorder(want, n);
      if check.Err? { return Err(BadOrder(check.error)); }
      var stmts := BuildBatch(stored, want);
      if stmts != [] {
        var ok := Execute(stmts);
        if !ok { return Err(RefusedByServer); }
      }
      ReorderKeepsFlow(old(stored), stored, want);
      return Ok(());
    }

    /** One step moved. */
    method MoveStep(stepId: int, newStepId: int) returns (r: Result<(), ReorderError>)
      requires stored.NamesUnique() && stored.DatabasesSettled()
      modifies this
      ensures r.Ok? <==> 1 <= stepId <= |old(stored).steps| && old(stored).GoTosValid()
      ensures r.Err? ==> stored == old(stored)
      ensures r.Ok? ==>
        && IsOrder(MoveOrder(stepId, newStepId, |old(stored).steps|), |old(stored).steps|)
        && SameJob(stored, Permuted(old(stored), MoveOrder(stepId, newStepId, |old(stored).steps|)))
    {
      MoveOrderAccepted(stepId, newStepId, |stored.steps|);
      r := ReorderSteps((n: nat) => MoveOrder(stepId, newStepId, n));
    }
  }

  /** A move and the move back leave the job as it was, ignored numbers aside. */
  method MoveThereAndBack(j: AgentJob, a: int, b: int)
    requires j.stored.NamesUnique() && j.stored.DatabasesSettled() && j.stored.GoTosValid()
    requires 1 <= a <= |j.stored.steps| && 1 <= b <= |j.stored.steps|
    modifies j
    ensures SameJob(j.stored, old(j.stored))
  {
    ghost var job, n := j.stored, |j.stored.steps|;
    var there := j.MoveStep(a, b);
    ghost var mid := j.stored;
    PermutedStaysValid(job, MoveOrder(a, b, n));
    SameJobStaysValid(mid, Permuted(job, MoveOrder(a, b, n)));
    var back := j.MoveStep(b, a);
    MoveIsUndone(job, mid, j.stored, a, b);
  }

  lemma MoveIsUndone(job: Job, mid: Job, end: Job, a: int, b: int)
    requires job.GoTosValid()
    requires 1 <= a <= |job.steps| && 1 <= b <= |job.steps| && |mid.steps| == |job.steps|
    requires IsOrder(MoveOrder(a, b, |job.steps|), |job.steps|) && IsOrder(MoveOrder(b, a, |job.steps|), |job.steps|)
    requires SameJob(mid, Permuted(job, MoveOrder(a, b, |job.steps|)))
    requires SameJob(end, Permuted(mid, MoveOrder(b, a, |job.steps|)))
    ensures SameJob(end, job)
  {
    var n := |job.steps|;
    var first, second := MoveOrder(a, b, n), MoveOrder(b, a, n);
    MoveBack(a, b, n);
    PermutedRespects(mid, Permuted(job, first), second);
    PermutedCompose(job, first, second);
    PermutedByIds(job);
    SameJobTransitive(end, Permuted(mid, second), Permuted(Permuted(job, first), second));
    SameJobTransitive(end, Permuted(Permuted(job, first), second), Permuted(job, Ids(n)));
    SameJobTransitive(end, Permuted(job, Ids(n)), job);
  }

  lemma SameJobTransitive(a: Job, b: Job, c: Job)
    requires SameJob(a, b) && SameJob(b, c)
    ensures SameJob(a, c)
  {
  }
}
