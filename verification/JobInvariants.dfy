/** The invariant of the job table and its preservation by every operation. */
module JobInvariants {
  import opened Wrappers
  import opened JobStore

  // ----- counting journal lines -----

  function StartedCount(h: seq<Entry>): nat {
    if h == [] then 0
    else StartedCount(h[..|h| - 1]) + if h[|h| - 1].Started? then 1 else 0
  }

  function ResetCount(h: seq<Entry>): nat {
    if h == [] then 0
    else ResetCount(h[..|h| - 1]) + if h[|h| - 1] == Requeued(true) then 1 else 0
  }

  /** STARTED lines after the last resetting REQUEUED line. */
  function StartedSinceReset(h: seq<Entry>): nat {
    if h == [] || h[|h| - 1] == Requeued(true) then 0
    else StartedSinceReset(h[..|h| - 1]) + if h[|h| - 1].Started? then 1 else 0
  }

  lemma CountsAppend(h: seq<Entry>, e: Entry)
    ensures StartedCount(h + [e]) == StartedCount(h) + if e.Started? then 1 else 0
    ensures ResetCount(h + [e]) == ResetCount(h) + if e == Requeued(true) then 1 else 0
    ensures StartedSinceReset(h + [e]) ==
            if e == Requeued(true) then 0 else StartedSinceReset(h) + if e.Started? then 1 else 0
  {
    assert (h + [e])[..|h|] == h;
  }

  /** `n` whole attempt budgets; BudgetsIsProduct gives the closed form. */
  function Budgets(maxAttempts: nat, n: nat): nat {
    if n == 0 then 0 else maxAttempts + Budgets(maxAttempts, n - 1)
  }

  lemma {:induction false} BudgetsIsProduct(maxAttempts: nat, n: nat)
    ensures Budgets(maxAttempts, n) == maxAttempts * n
  {
    if n != 0 {
      BudgetsIsProduct(maxAttempts, n - 1);
      assert maxAttempts * n == maxAttempts * (n - 1) + maxAttempts;
    }
  }

  // ----- the invariant -----

  predicate StatusOk(job: Job) {
    && (Terminal(job.status) <==> job.finishedAt.Some?)
    && (job.status == Running ==> job.lease.Some?)
    && (job.lease.Some? ==> Live(job.status) || job.status == RetryPending)
  }

  predicate CountsOk(job: Job, h: seq<Entry>) {
    && job.attempt <= job.maxAttempts
    && job.attempt == StartedSinceReset(h)
    && StartedCount(h) == Budgets(job.maxAttempts, ResetCount(h)) + job.attempt
  }

  predicate RowOk(job: Job, h: seq<Entry>) {
    job.maxAttempts >= 1 && StatusOk(job) && CountsOk(job, h)
  }

  ghost predicate Inv(s: Store) {
    && s.journal.Keys == s.jobs.Keys
    && forall id :: id in s.jobs ==> RowOk(s.jobs[id], s.journal[id])
  }

  lemma CommitInv(s: Store, id: JobId, job: Job, e: Entry)
    requires Inv(s)
    requires RowOk(job, History(s, id) + [e])
    ensures Inv(Commit(s, id, job, e))
  {
  }

  /** A journal line that is neither STARTED nor a reset leaves the accounts alone. */
  lemma NeutralEntry(job: Job, job': Job, h: seq<Entry>, e: Entry)
    requires CountsOk(job, h)
    requires job'.attempt == job.attempt && job'.maxAttempts == job.maxAttempts
    requires !e.Started? && e != Requeued(true)
    ensures CountsOk(job', h + [e])
  {
    CountsAppend(h, e);
  }

  lemma ClaimCounts(job: Job, job': Job, h: seq<Entry>, e: Entry)
    requires CountsOk(job, h) && job.attempt < job.maxAttempts
    requires job'.attempt == job.attempt + 1 && job'.maxAttempts == job.maxAttempts
    requires e.Started?
    ensures CountsOk(job', h + [e])
  {
    CountsAppend(h, e);
  }

  lemma ResetCounts(job: Job, job': Job, h: seq<Entry>)
    requires CountsOk(job, h) && job.attempt == job.maxAttempts
    requires job'.attempt == 0 && job'.maxAttempts == job.maxAttempts
    ensures CountsOk(job', h + [Requeued(true)])
  {
    CountsAppend(h, Requeued(true));
  }

  lemma ClaimInv(s: Store, id: JobId, lease: Lease, now: Time, clear: bool)
    requires Inv(s) && id in s.jobs && Waiting(s.jobs[id].status)
    requires s.jobs[id].attempt < s.jobs[id].maxAttempts
    ensures Inv(AfterClaimOf(s, id, lease, now, clear))
  {
    ClaimCounts(s.jobs[id], ClaimedJob(s.jobs[id], lease, now, clear), s.journal[id], Started(lease.worker));
    CommitInv(s, id, ClaimedJob(s.jobs[id], lease, now, clear), Started(lease.worker));
  }

  lemma WrittenOk(job: Job, target: Status, data: WriteData, now: Time)
    requires StatusOk(job)
    requires WorkerTarget(target) || target == CancelRequested
    ensures StatusOk(Written(job, target, data, now))
  {
  }

  lemma WriteInv(s: Store, id: JobId, target: Status, data: WriteData, lease: Option<Lease>, now: Time)
    requires Inv(s)
    requires WorkerTarget(target) || target == CancelRequested
    ensures Inv(AfterWrite(s, id, target, data, lease, now))
  {
    if !WriteLands(s, id, lease) {
      assert AfterWrite(s, id, target, data, lease, now) == s;
    } else {
      var e := StatusSet(target, if lease == None then None else Some(lease.value.worker));
      var job := s.jobs[id];
      assert RowOk(job, s.journal[id]);
      WrittenOk(job, target, data, now);
      NeutralEntry(job, Written(job, target, data, now), s.journal[id], e);
      CommitInv(s, id, Written(job, target, data, now), e);
    }
  }

  lemma RequeueInv(s: Store, id: JobId, tenant: Option<string>, principal: Option<string>, reset: bool)
    requires Inv(s)
    ensures Inv(AfterRequeue(s, id, tenant, principal, reset))
  {
    if Requeues(s, id, tenant, principal) {
      var job, h := s.jobs[id], s.journal[id];
      if reset { ResetCounts(job, RequeuedJob(job, true), h); }
      else { NeutralEntry(job, RequeuedJob(job, false), h, Requeued(false)); }
      CommitInv(s, id, RequeuedJob(job, reset), Requeued(reset));
    }
  }

  lemma SubmitInv(s: Store, id: JobId, r: Request, now: Time)
    requires Inv(s)
    ensures Inv(AfterSubmit(s, id, r, now))
  {
    if Inserts(s, id, r) {
      CountsAppend([], Planned(r.jobType));
      CommitInv(s, id, NewJob(r, now), Planned(r.jobType));
    }
  }

  lemma CancelInv(s: Store, id: JobId, now: Time)
    requires Inv(s)
    ensures Inv(AfterRequestCancel(s, id, now))
  {
    if id in s.jobs && !Terminal(s.jobs[id].status) {
      var target := CancelTarget(s.jobs[id].status);
      WriteInv(s, id, target, CancelData(target), None, now);
    }
  }

  lemma HeartbeatInv(s: Store, id: JobId, worker: WorkerId, token: Option<Token>, checkpoint: string, now: Time)
    requires Inv(s)
    ensures Inv(AfterHeartbeat(s, id, worker, token, checkpoint, now))
  {
    var s' := AfterHeartbeat(s, id, worker, token, checkpoint, now);
    forall i | i in s'.jobs ensures RowOk(s'.jobs[i], s'.journal[i]) {
      assert RowOk(s.jobs[i], s.journal[i]);
    }
  }

  lemma MarkInv(s: Store, before: Time, types: Option<set<string>>, now: Time)
    requires Inv(s)
    ensures Inv(AfterMark(s, before, types, now))
  {
    var s' := AfterMark(s, before, types, now);
    forall i | i in s'.jobs ensures RowOk(s'.jobs[i], s'.journal[i]) {
      assert RowOk(s.jobs[i], s.journal[i]);
    }
  }

  lemma RecoverInv(s: Store, types: Option<set<string>>, now: Time)
    requires Inv(s)
    ensures Inv(AfterRecover(s, types, now))
  {
    var s' := AfterRecover(s, types, now);
    forall i | i in s'.jobs ensures RowOk(s'.jobs[i], s'.journal[i]) {
      assert RowOk(s.jobs[i], s.journal[i]);
    }
  }

  lemma ClaimStepInv(s: Store, op: Op)
    requires Inv(s) && (op.ClaimNext? || op.Claim?)
    ensures Inv(Apply(s, op))
  {
    match Claims(s, op)
    case None =>
    case Some(id) => ClaimInv(s, id, op.lease, if op.ClaimNext? then op.query.now else op.now, op.ClaimNext?);
  }

  /** Every operation keeps the invariant, a cancellation's late write included. */
  lemma StepInv(s: Store, op: Op)
    requires Inv(s) && WellFormed(op)
    ensures Inv(Apply(s, op))
  {
    match op
    case Submit(id, r, now) => SubmitInv(s, id, r, now);
    case ClaimNext(_, _) => ClaimStepInv(s, op);
    case Claim(_, _, _) => ClaimStepInv(s, op);
    case Heartbeat(id, worker, token, checkpoint, now) => HeartbeatInv(s, id, worker, token, checkpoint, now);
    case Write(id, target, data, guard, now) => WriteInv(s, id, target, data, guard, now);
    case RequestCancel(id, now) => CancelInv(s, id, now);
    case CancelWrite(id, seen, now) =>
      WriteInv(s, id, CancelTarget(seen), CancelData(CancelTarget(seen)), None, now);
    case MarkInterrupted(before, types, now) => MarkInv(s, before, types, now);
    case RecoverInterrupted(types, now) => RecoverInv(s, types, now);
    case RequeueFailed(id, tenant, principal, reset) => RequeueInv(s, id, tenant, principal, reset);
  }
}
