/** Which job a claim takes, how many jobs of one scope run at once, and how many
    claims a run can contain. */
module JobScheduling {
  import opened Wrappers
  import opened JobStore
  import opened JobInvariants
  import opened JobRuns

  // ----- the claim order -----

  lemma {:induction false} LeastOf(s: Store, ids: set<JobId>) returns (least: JobId)
    requires ids != {} && ids <= s.jobs.Keys
    ensures least in ids
    ensures forall id :: id in ids && id != least ==> Before(s, least, id)
  {
    var id :| id in ids;
    if ids == {id} {
      least := id;
    } else {
      var rest := LeastOf(s, ids - {id});
      least := if Before(s, id, rest) then id else rest;
      forall other | other in ids && other != least
        ensures Before(s, least, other)
      {
        if other != id && other != rest { assert Before(s, rest, other); }
      }
    }
  }

  lemma BeforeAsymmetric(s: Store, a: JobId, b: JobId)
    requires a in s.jobs && b in s.jobs
    ensures !(Before(s, a, b) && Before(s, b, a))
  {
  }

  /** `claim_next` finds nothing exactly when nothing is eligible, and what it
      finds is the only row that precedes every other eligible row. */
  lemma PickIsLeast(s: Store, q: Query)
    ensures Pick(s, q) == None <==> Idle(s, q)
    ensures forall id: JobId :: IsPick(s, q, id) <==> Pick(s, q) == Some(id)
  {
    var ids := set id | id in s.jobs && Eligible(s, id, q);
    if ids != {} {
      var least := LeastOf(s, ids);
      forall other: JobId | Eligible(s, other, q) && other != least
        ensures Before(s, least, other)
      {
        assert other in ids;
      }
      assert IsPick(s, q, least);
    } else {
      forall id: JobId ensures !Eligible(s, id, q) { assert id !in ids; }
    }
    forall id: JobId | IsPick(s, q, id)
      ensures Pick(s, q) == Some(id)
    {
      BeforeAsymmetric(s, id, Pick(s, q).value);
    }
  }

  /** A row waits, has attempts left, is due, of an asked type, and its scope runs
      fewer jobs than the limit. */
  ghost predicate MayStart(s: Store, job: Job, q: Query) {
    && (job.status == Queued || job.status == RetryPending)
    && job.attempt < job.maxAttempts
    && (job.availableAt.Some? ==> job.availableAt.value <= q.now)
    && (q.types != {} ==> job.jobType in q.types)
    && (q.limit.Some? ==> Load(s, job) < q.limit.value)
  }

  /** The running jobs of the job's tenant and principal. */
  ghost function Load(s: Store, job: Job): nat {
    |set id | id in s.jobs && s.jobs[id].status == Running
              && s.jobs[id].scope.tenant == job.scope.tenant && s.jobs[id].scope.principal == job.scope.principal|
  }

  lemma LoadIsRunning(s: Store, job: Job)
    ensures Load(s, job) == |RunningIn(s, job.scope)|
  {
    assert RunningIn(s, job.scope) ==
           set id | id in s.jobs && s.jobs[id].status == Running
                    && s.jobs[id].scope.tenant == job.scope.tenant && s.jobs[id].scope.principal == job.scope.principal;
  }

  lemma EligibleIff(s: Store, id: JobId, q: Query)
    ensures Eligible(s, id, q) <==> id in s.jobs && MayStart(s, s.jobs[id], q)
  {
    hide Load, RunningIn;
    if id in s.jobs { LoadIsRunning(s, s.jobs[id]); }
  }

  /** A claim finds a row exactly when some row may start; and of those it takes the
      one whose scope has the least load, in such a scope the oldest, and of several
      created at once the one with the smallest id. */
  lemma ClaimOrder(s: Store, q: Query)
    ensures Pick(s, q).Some? <==> exists id :: id in s.jobs && MayStart(s, s.jobs[id], q)
    ensures Pick(s, q).Some? ==>
              var first := Pick(s, q).value;
              && first in s.jobs && MayStart(s, s.jobs[first], q)
              && forall id :: id in s.jobs && MayStart(s, s.jobs[id], q) ==>
                   var a, b := s.jobs[first], s.jobs[id];
                   && Load(s, a) <= Load(s, b)
                   && (Load(s, a) == Load(s, b) ==> a.createdAt <= b.createdAt)
                   && (Load(s, a) == Load(s, b) && a.createdAt == b.createdAt ==> first <= id)
  {
    hide Load, RunningIn, Eligible, MayStart, Pick;
    PickIsLeast(s, q);
    forall id ensures Eligible(s, id, q) <==> id in s.jobs && MayStart(s, s.jobs[id], q) { EligibleIff(s, id, q); }
    if Pick(s, q).Some? {
      var first := Pick(s, q).value;
      assert IsPick(s, q, first);
      LoadIsRunning(s, s.jobs[first]);
      forall id | id in s.jobs && MayStart(s, s.jobs[id], q)
        ensures Load(s, s.jobs[first]) <= Load(s, s.jobs[id])
        ensures Load(s, s.jobs[first]) == Load(s, s.jobs[id]) ==> s.jobs[first].createdAt <= s.jobs[id].createdAt
        ensures Load(s, s.jobs[first]) == Load(s, s.jobs[id]) && s.jobs[first].createdAt == s.jobs[id].createdAt ==>
                  first <= id
      {
        LoadIsRunning(s, s.jobs[id]);
        if id != first { assert Before(s, first, id); }
      }
    }
  }

  // ----- at most `limit` running jobs per scope -----

  predicate ClaimsWithLimit(op: Op, limit: nat) {
    && !op.Claim?
    && (op.ClaimNext? ==> op.query.limit == Some(limit))
  }

  /** Only the claimed row can join the running rows of its scope. */
  lemma RunningStep(s: Store, op: Op, scope: Scope)
    requires Inv(s) && WellFormed(op)
    ensures RunningIn(Apply(s, op), scope) <= RunningIn(s, scope) +
            (match Claims(s, op) case None => {} case Some(id) => if s.jobs[id].scope == scope then {id} else {})
  {
    forall id | id in RunningIn(Apply(s, op), scope)
      ensures id in RunningIn(s, scope) || (Claims(s, op) == Some(id) && s.jobs[id].scope == scope)
    {
      if id in s.jobs { KeyStep(s, op, id); } else { NewRowStep(s, op, id); }
    }
  }

  lemma CardinalityLe(a: set<JobId>, b: set<JobId>)
    requires a <= b
    ensures |a| <= |b|
  {
    assert b == a + (b - a);
  }

  /** When every claim goes through `claim_next` with one limit, no scope ever has
      more running jobs than that. */
  lemma {:induction false} ScopeLimit(ops: seq<Op>, limit: nat, scope: Scope)
    requires AllWellFormed(ops)
    requires forall op :: op in ops ==> ClaimsWithLimit(op, limit)
    ensures |RunningIn(Exec(ops), scope)| <= limit
  {
    if ops == [] {
      assert RunningIn(EMPTY, scope) == {};
    } else {
      var pre, op := ops[..|ops| - 1], ops[|ops| - 1];
      assert op in ops;
      ScopeLimit(pre, limit, scope);
      ReachableInv(pre);
      RunningStep(Exec(pre), op, scope);
      match Claims(Exec(pre), op)
      case None => CardinalityLe(RunningIn(Exec(ops), scope), RunningIn(Exec(pre), scope));
      case Some(id) =>
        if Exec(pre).jobs[id].scope == scope {
          assert Eligible(Exec(pre), id, op.query);
          CardinalityLe(RunningIn(Exec(ops), scope), RunningIn(Exec(pre), scope) + {id});
        } else {
          CardinalityLe(RunningIn(Exec(ops), scope), RunningIn(Exec(pre), scope));
        }
    }
  }

  // ----- the attempt budget -----

  function Left(job: Job): nat {
    if job.attempt <= job.maxAttempts then job.maxAttempts - job.attempt else 0
  }

  ghost function SumLeft(jobs: map<JobId, Job>, ids: set<JobId>): nat
    requires ids <= jobs.Keys
  {
    if ids == {} then 0
    else
      var id :| id in ids;
      Left(jobs[id]) + SumLeft(jobs, ids - {id})
  }

  /** All attempts the stored jobs may still make. */
  ghost function Budget(s: Store): nat {
    SumLeft(s.jobs, s.jobs.Keys)
  }

  lemma {:induction false} SumLeftRemove(jobs: map<JobId, Job>, ids: set<JobId>, id: JobId)
    requires ids <= jobs.Keys && id in ids
    ensures SumLeft(jobs, ids) == Left(jobs[id]) + SumLeft(jobs, ids - {id})
  {
    var first :| first in ids && SumLeft(jobs, ids) == Left(jobs[first]) + SumLeft(jobs, ids - {first});
    if first != id {
      SumLeftRemove(jobs, ids - {first}, id);
      SumLeftRemove(jobs, ids - {id}, first);
      assert ids - {first} - {id} == ids - {id} - {first};
    }
  }

  lemma {:induction false} SumLeftFrame(jobs: map<JobId, Job>, jobs': map<JobId, Job>, ids: set<JobId>)
    requires ids <= jobs.Keys && ids <= jobs'.Keys
    requires forall id :: id in ids ==> Left(jobs'[id]) == Left(jobs[id])
    ensures SumLeft(jobs', ids) == SumLeft(jobs, ids)
  {
    if ids != {} {
      var id :| id in ids;
      SumLeftFrame(jobs, jobs', ids - {id});
      SumLeftRemove(jobs, ids, id);
      SumLeftRemove(jobs', ids, id);
    }
  }

  /** Attempts an operation adds: those of a new job, or a replay's fresh budget. */
  function Grant(s: Store, op: Op): nat {
    if op.Submit? && Inserts(s, op.newId, op.request) then op.request.maxAttempts
    else if op.RequeueFailed? && op.reset && Requeues(s, op.id, op.tenant, op.principal) then
      s.jobs[op.id].maxAttempts
    else 0
  }

  lemma BudgetOneRow(s: Store, s': Store, id: JobId)
    requires s'.jobs.Keys == s.jobs.Keys && id in s.jobs
    requires forall i :: i in s.jobs && i != id ==> Left(s'.jobs[i]) == Left(s.jobs[i])
    ensures Budget(s') + Left(s.jobs[id]) == Budget(s) + Left(s'.jobs[id])
  {
    SumLeftRemove(s.jobs, s.jobs.Keys, id);
    SumLeftRemove(s'.jobs, s.jobs.Keys, id);
    SumLeftFrame(s.jobs, s'.jobs, s.jobs.Keys - {id});
  }

  lemma BudgetNewRow(s: Store, s': Store, id: JobId)
    requires id !in s.jobs && id in s'.jobs && s'.jobs.Keys - {id} == s.jobs.Keys
    requires forall i :: i in s.jobs ==> Left(s'.jobs[i]) == Left(s.jobs[i])
    ensures Budget(s') == Budget(s) + Left(s'.jobs[id])
  {
    SumLeftRemove(s'.jobs, s'.jobs.Keys, id);
    SumLeftFrame(s.jobs, s'.jobs, s.jobs.Keys);
  }

  lemma LeftStep(s: Store, op: Op, id: JobId)
    requires Inv(s) && WellFormed(op) && id in s.jobs
    ensures id in Apply(s, op).jobs
    ensures Left(Apply(s, op).jobs[id]) + (if Claims(s, op) == Some(id) then 1 else 0) ==
            Left(s.jobs[id]) + (if op.RequeueFailed? && op.id == id then Grant(s, op) else 0)
  {
    assert RowOk(s.jobs[id], s.journal[id]);
    KeyStep(s, op, id);
  }

  lemma KeysStep(s: Store, op: Op)
    ensures Apply(s, op).jobs.Keys ==
            s.jobs.Keys + if op.Submit? && Inserts(s, op.newId, op.request) then {op.newId} else {}
  {
  }

  lemma BudgetByRows(s: Store, s': Store, claimed: Option<JobId>, granted: Option<JobId>, grant: nat)
    requires s'.jobs.Keys == s.jobs.Keys
    requires claimed == None || granted == None
    requires claimed.Some? ==> claimed.value in s.jobs
    requires granted.Some? ==> granted.value in s.jobs
    requires forall i :: i in s.jobs ==>
               Left(s'.jobs[i]) + (if claimed == Some(i) then 1 else 0) ==
               Left(s.jobs[i]) + (if granted == Some(i) then grant else 0)
    ensures Budget(s') + (if claimed.Some? then 1 else 0) == Budget(s) + (if granted.Some? then grant else 0)
  {
    if claimed.Some? {
      BudgetOneRow(s, s', claimed.value);
    } else if granted.Some? {
      BudgetOneRow(s, s', granted.value);
    } else {
      SumLeftFrame(s.jobs, s'.jobs, s.jobs.Keys);
    }
  }

  lemma LeftSteps(s: Store, op: Op, granted: Option<JobId>)
    requires Inv(s) && WellFormed(op)
    requires granted == if op.RequeueFailed? && op.id in s.jobs then Some(op.id) else None
    ensures s.jobs.Keys <= Apply(s, op).jobs.Keys
    ensures forall i :: i in s.jobs ==>
              Left(Apply(s, op).jobs[i]) + (if Claims(s, op) == Some(i) then 1 else 0) ==
              Left(s.jobs[i]) + (if granted == Some(i) then Grant(s, op) else 0)
  {
    KeysStep(s, op);
    forall i | i in s.jobs
      ensures Left(Apply(s, op).jobs[i]) + (if Claims(s, op) == Some(i) then 1 else 0) ==
              Left(s.jobs[i]) + (if granted == Some(i) then Grant(s, op) else 0)
    {
      LeftStep(s, op, i);
    }
  }

  lemma BudgetStep(s: Store, op: Op)
    requires Inv(s) && WellFormed(op)
    ensures Budget(Apply(s, op)) + (if Claims(s, op).Some? then 1 else 0) == Budget(s) + Grant(s, op)
  {
    var granted := if op.RequeueFailed? && op.id in s.jobs then Some(op.id) else None;
    LeftSteps(s, op, granted);
    KeysStep(s, op);
    if op.Submit? && Inserts(s, op.newId, op.request) {
      NewRowStep(s, op, op.newId);
      BudgetNewRow(s, Apply(s, op), op.newId);
    } else {
      BudgetByRows(s, Apply(s, op), Claims(s, op), granted, Grant(s, op));
    }
  }

  // ----- continuing from any store -----

  ghost function After(s: Store, ops: seq<Op>): Store {
    if ops == [] then s else Apply(After(s, ops[..|ops| - 1]), ops[|ops| - 1])
  }

  ghost function ClaimsIn(s: Store, ops: seq<Op>): nat {
    if ops == [] then 0
    else
      var pre, op := ops[..|ops| - 1], ops[|ops| - 1];
      ClaimsIn(s, pre) + if Claims(After(s, pre), op).Some? then 1 else 0
  }

  ghost function Grants(s: Store, ops: seq<Op>): nat {
    if ops == [] then 0
    else
      var pre, op := ops[..|ops| - 1], ops[|ops| - 1];
      Grants(s, pre) + Grant(After(s, pre), op)
  }

  /** Conservation of attempts: what is left plus what was claimed is what there
      was plus what submissions and resetting replays granted. In particular a
      run contains at most Budget(s) + Grants(s, ops) claims. */
  lemma {:induction false} AttemptsConserved(s: Store, ops: seq<Op>)
    requires Inv(s) && AllWellFormed(ops)
    ensures Inv(After(s, ops))
    ensures Budget(After(s, ops)) + ClaimsIn(s, ops) == Budget(s) + Grants(s, ops)
  {
    if ops != [] {
      var pre, op := ops[..|ops| - 1], ops[|ops| - 1];
      assert op in ops;
      AttemptsConserved(s, pre);
      StepInv(After(s, pre), op);
      BudgetStep(After(s, pre), op);
    }
  }

  lemma AfterSnoc(s: Store, ops: seq<Op>, op: Op)
    ensures After(s, ops + [op]) == Apply(After(s, ops), op)
    ensures ClaimsIn(s, ops + [op]) == ClaimsIn(s, ops) + if Claims(After(s, ops), op).Some? then 1 else 0
  {
    assert (ops + [op])[..|ops|] == ops;
  }

  lemma {:induction false} AfterConcat(s: Store, a: seq<Op>, b: seq<Op>)
    ensures After(s, a + b) == After(After(s, a), b)
    ensures ClaimsIn(s, a + b) == ClaimsIn(s, a) + ClaimsIn(After(s, a), b)
  {
    if b == [] {
      assert a + b == a;
    } else {
      var pre := b[..|b| - 1];
      AfterConcat(s, a, pre);
      assert (a + b)[..|a + b| - 1] == a + pre;
    }
  }
}
