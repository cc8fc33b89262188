/** The repository object: one method per operation, each tied to its effect on
    the stored rows and journal. */
module JobRepository {
  import opened Wrappers
  import opened JobStore
  import opened JobScheduling

  datatype Error = ValueError | KeyError | PermissionError | RuntimeError | IntegrityError

  lemma ApplyMark(s: Store, before: Time, types: Option<set<string>>, now: Time)
    ensures Apply(s, JobStore.Op.MarkInterrupted(before, types, now)) == AfterMark(s, before, types, now)
  {
  }

  lemma ApplyRecover(s: Store, types: Option<set<string>>, now: Time)
    ensures Apply(s, JobStore.Op.RecoverInterrupted(types, now)) == AfterRecover(s, types, now)
  {
  }

  lemma MarkedIs(job: Job, now: Time)
    ensures var cancelling := job.status == CancelRequested;
            Marked(job, now) == job.(
              status := if cancelling then Cancelled else Interrupted,
              finishedAt := if cancelling then Some(now) else None,
              lease := None,
              availableAt := None,
              errorType := Some(if cancelling then "CancelledAfterWorkerLost" else "ProcessRestart"))
  {
  }

  lemma RecoveredIs(job: Job, now: Time)
    ensures var retry := job.attempt < job.maxAttempts;
            Recovered(job, now) == job.(
              status := if retry then RetryPending else Failed,
              finishedAt := if retry then None else Some(now),
              lease := None,
              availableAt := None)
  {
  }

  /** A claim starts the next attempt under its lease, with a first heartbeat. */
  ghost predicate Begun(before: Job, after: Job, worker: WorkerId, token: Token, now: Time) {
    && (before.status == Queued || before.status == RetryPending) && before.attempt < before.maxAttempts
    && (before.availableAt.Some? ==> before.availableAt.value <= now)
    && after.status == Running && after.attempt == before.attempt + 1
    && after.lease == Some(Lease(worker, token)) && after.heartbeatAt == Some(now)
    && after.startedAt == (if before.startedAt.Some? then before.startedAt else Some(now))
    && after.availableAt == None
    && after.scope == before.scope && after.maxAttempts == before.maxAttempts && after.checkpoint == before.checkpoint
  }

  /** A cancellation ends a job no worker has, marks one that a worker has and
      leaves an ended one alone. */
  ghost predicate CancelSeen(before: Job, after: Job, now: Time) {
    match before.status
    case Succeeded | Failed | Cancelled => after == before
    case Queued | RetryPending | Interrupted =>
      && after.status == Cancelled && after.errorType == Some("CancelledByUser")
      && after.finishedAt == Some(now) && after.lease == None && after.attempt == before.attempt
    case Running | CancelRequested =>
      && after.status == CancelRequested && after.errorType == None
      && after.finishedAt == None && after.lease == before.lease && after.attempt == before.attempt
  }

  /** A worker has the job and no heartbeat came since `before`. */
  ghost predicate Overdue(job: Job, before: Time, types: Option<set<string>>) {
    && (job.status == Running || job.status == CancelRequested)
    && (job.heartbeatAt.Some? ==> job.heartbeatAt.value < before)
    && (types.Some? ==> job.jobType in types.value)
  }

  lemma OverdueIff(before: Time, types: Option<set<string>>)
    ensures forall job :: Overdue(job, before, types) <==> Stale(job, before, types)
  {
  }

  ghost predicate Stopped(job: Job, types: Option<set<string>>) {
    job.status == Interrupted && (types.Some? ==> job.jobType in types.value)
  }

  lemma StoppedIff(types: Option<set<string>>)
    ensures forall job :: Stopped(job, types) <==> Recoverable(job, types)
  {
  }

  class PersistentJobRepository {
    var jobs: map<JobId, Job>
    var actions: map<JobId, seq<Entry>>

    function State(): Store
      reads this
    {
      Store(jobs, actions)
    }

    constructor ()
      ensures State() == EMPTY
    {
      jobs, actions := map[], map[];
    }

    method AppendAction(id: JobId, entry: Entry)
      modifies this`actions
      ensures actions == old(actions)[id := History(old(State()), id) + [entry]]
    {
      actions := actions[id := (if id in actions then actions[id] else []) + [entry]];
    }

    method Submit(newId: JobId, r: Request, now: Time) returns (res: Result<(JobId, bool), Error>)
      modifies this
      ensures State() == Apply(old(State()), JobStore.Op.Submit(newId, r, now))
      ensures res.Ok? <==> ValidRequest(r) && (newId in old(jobs) ==> KeyTaken(old(State()), r.idempotencyKey))
      ensures res.Ok? ==> res.value.0 in jobs && jobs[res.value.0].idempotencyKey == r.idempotencyKey
      ensures res.Ok? ==> (res.value.1 <==> !KeyTaken(old(State()), r.idempotencyKey))
      ensures res == Err(ValueError) <==>
                r.jobType == "" || r.workspaceId == "" || r.idempotencyKey == "" || r.scopeVersion < 1 || r.maxAttempts < 1
      ensures res.Ok? && res.value.1 ==>
                var job := jobs[newId];
                && res.value.0 == newId && job.status == Queued && job.attempt == 0
                && job.jobType == r.jobType && job.scope == r.scope && job.maxAttempts == r.maxAttempts
                && job.createdAt == now && job.lease == None && job.availableAt == None
    {
      if !ValidRequest(r) {
        return Err(ValueError);
      }
      if existing :| existing in jobs && jobs[existing].idempotencyKey == r.idempotencyKey {
        assert KeyTaken(State(), r.idempotencyKey);
        return Ok((existing, false));
      }
      if newId in jobs {
        return Err(IntegrityError);
      }
      jobs := jobs[newId := NewJob(r, now)];
      AppendAction(newId, Planned(r.jobType));
      return Ok((newId, true));
    }

    /** The SELECT of `claim_next`: the first eligible row in claim order. */
    method SelectNext(q: Query) returns (row: Option<JobId>)
      ensures row == Pick(State(), q)
    {
      row := None;
      var rest := jobs.Keys;
      while rest != {}
        invariant rest <= jobs.Keys
        invariant row.Some? ==> row.value in jobs.Keys - rest && Eligible(State(), row.value, q)
        invariant forall id :: id in jobs.Keys - rest && Eligible(State(), id, q) && row != Some(id) ==>
                                 row.Some? && Before(State(), row.value, id)
      {
        var id :| id in rest;
        rest := rest - {id};
        if Eligible(State(), id, q) && (row == None || Before(State(), id, row.value)) {
          row := Some(id);
        }
      }
      PickIsLeast(State(), q);
      assert row.Some? ==> IsPick(State(), q, row.value);
    }

    method ClaimNext(q: Query, worker: WorkerId, token: Token) returns (res: Result<Option<JobId>, Error>)
      modifies this
      ensures State() == Apply(old(State()), JobStore.Op.ClaimNext(q, Lease(worker, token)))
      ensures res == if ValidLimit(q.limit) then Ok(Pick(old(State()), q)) else Err(ValueError)
      ensures res == Err(ValueError) <==> q.limit == Some(0)
      ensures res.Ok? && res.value.Some? ==>
                var id := res.value.value;
                && id in old(jobs) && Begun(old(jobs)[id], jobs[id], worker, token, q.now)
                && jobs[id].finishedAt == None && jobs[id].errorType == None
    {
      if q.limit.Some? && q.limit.value < 1 {
        return Err(ValueError);
      }
      var row := SelectNext(q);
      if row == None {
        return Ok(None);
      }
      var job := jobs[row.value];
      jobs := jobs[row.value := job.(
        status := Running, attempt := job.attempt + 1, lease := Some(Lease(worker, token)),
        startedAt := if job.startedAt == None then Some(q.now) else job.startedAt,
        heartbeatAt := Some(q.now), finishedAt := None, errorType := None, availableAt := None)];
      AppendAction(row.value, Started(worker));
      return Ok(row);
    }

    method Claim(id: JobId, worker: WorkerId, token: Token, now: Time) returns (res: Result<Job, Error>)
      modifies this
      ensures State() == Apply(old(State()), JobStore.Op.Claim(id, Lease(worker, token), now))
      ensures res.Ok? <==> id in old(jobs) && Claimable(old(jobs[id]), now)
      ensures res.Ok? ==> id in jobs && res.value == jobs[id]
      ensures res.Ok? ==> Begun(old(jobs)[id], jobs[id], worker, token, now)
    {
      if id !in jobs || !Claimable(jobs[id], now) {
        return Err(RuntimeError);
      }
      var job := jobs[id];
      jobs := jobs[id := job.(
        status := Running, attempt := job.attempt + 1, lease := Some(Lease(worker, token)),
        startedAt := if job.startedAt == None then Some(now) else job.startedAt,
        heartbeatAt := Some(now), availableAt := None)];
      AppendAction(id, Started(worker));
      return Ok(jobs[id]);
    }

    method Heartbeat(id: JobId, worker: WorkerId, token: Option<Token>, checkpoint: string, now: Time)
      returns (res: Result<Job, Error>)
      modifies this`jobs
      ensures State() == Apply(old(State()), JobStore.Op.Heartbeat(id, worker, token, checkpoint, now))
      ensures res.Ok? <==> HeartbeatLands(old(State()), id, worker, token)
      ensures res.Ok? ==>
                && id in old(jobs) && old(jobs)[id].status == Running && old(jobs)[id].lease.Some?
                && old(jobs)[id].lease.value.worker == worker
                && (token.Some? ==> old(jobs)[id].lease.value.token == token.value)
    {
      if id !in jobs || jobs[id].status != Running || !Holds(jobs[id], worker, token) {
        return Err(RuntimeError);
      }
      jobs := jobs[id := jobs[id].(heartbeatAt := Some(now), checkpoint := checkpoint)];
      return Ok(jobs[id]);
    }

    method SetStatus(id: JobId, target: Status, data: WriteData,
                     worker: Option<WorkerId>, token: Option<Token>, now: Time)
      returns (res: Result<Job, Error>)
      modifies this
      ensures worker.Some? && token == None ==> res == Err(ValueError) && State() == old(State())
      ensures !(worker.Some? && token == None) ==>
              var lease := if worker.Some? then Some(Lease(worker.value, token.value)) else None;
              && State() == AfterWrite(old(State()), id, target, data, lease, now)
              && res == if WriteLands(old(State()), id, lease) then Ok(State().jobs[id]) else Err(KeyError)
    {
      if worker.Some? && token == None {
        return Err(ValueError);
      }
      if id !in jobs ||
         (worker.Some? && jobs[id].lease != Some(Lease(worker.value, token.value))) {
        return Err(KeyError);
      }
      var finishedAt := if Terminal(target) then Some(now) else None;
      var lease := if Terminal(target) then None else jobs[id].lease;
      jobs := jobs[id := jobs[id].(
        status := target, finishedAt := finishedAt, errorType := data.errorType,
        resultReference := data.resultReference, availableAt := data.availableAt, lease := lease)];
      AppendAction(id, StatusSet(target, worker));
      return Ok(jobs[id]);
    }

    /** Reading the status and writing the cancellation with nothing in between. */
    method CancelNow(id: JobId, now: Time)
      modifies this
      ensures State() == Apply(old(State()), JobStore.Op.RequestCancel(id, now))
      ensures id in old(jobs) ==> id in jobs && CancelSeen(old(jobs)[id], jobs[id], now)
    {
      if id in jobs && !Terminal(jobs[id].status) {
        var target := CancelTarget(jobs[id].status);
        var _ := SetStatus(id, target, CancelData(target), None, None, now);
      }
    }

    method MarkInterrupted(before: Time, types: Option<set<string>>, now: Time) returns (rows: set<JobId>)
      modifies this`jobs
      ensures State() == Apply(old(State()), JobStore.Op.MarkInterrupted(before, types, now))
      ensures forall id :: id in rows <==> id in old(jobs) && Overdue(old(jobs)[id], before, types)
    {
      hide Apply, Stale, Overdue, Marked, Claims;
      OverdueIff(before, types);
      ApplyMark(State(), before, types, now);
      rows := set id | id in jobs && Stale(jobs[id], before, types);
      var rest := rows;
      while rest != {}
        invariant rest <= rows <= jobs.Keys && jobs.Keys == old(jobs).Keys
        invariant forall id :: id in jobs ==>
                    jobs[id] == if id in rows - rest then Marked(old(jobs)[id], now) else old(jobs)[id]
      {
        var id :| id in rest;
        rest := rest - {id};
        MarkedIs(jobs[id], now);
        var cancelling := jobs[id].status == CancelRequested;
        jobs := jobs[id := jobs[id].(
          status := if cancelling then Cancelled else Interrupted,
          finishedAt := if cancelling then Some(now) else None,
          lease := None,
          availableAt := None,
          errorType := Some(if cancelling then "CancelledAfterWorkerLost" else "ProcessRestart"))];
      }
    }

    method RecoverInterrupted(types: Option<set<string>>, now: Time) returns (rows: set<JobId>)
      modifies this`jobs
      ensures State() == Apply(old(State()), JobStore.Op.RecoverInterrupted(types, now))
      ensures forall id :: id in rows <==> id in old(jobs) && Stopped(old(jobs)[id], types)
    {
      hide Apply, Recoverable, Stopped, Recovered, Claims;
      StoppedIff(types);
      ApplyRecover(State(), types, now);
      rows := set id | id in jobs && Recoverable(jobs[id], types);
      var rest := rows;
      while rest != {}
        invariant rest <= rows <= jobs.Keys && jobs.Keys == old(jobs).Keys
        invariant forall id :: id in jobs ==>
                    jobs[id] == if id in rows - rest then Recovered(old(jobs)[id], now) else old(jobs)[id]
      {
        var id :| id in rest;
        rest := rest - {id};
        RecoveredIs(jobs[id], now);
        var retry := jobs[id].attempt < jobs[id].maxAttempts;
        jobs := jobs[id := jobs[id].(
          status := if retry then RetryPending else Failed,
          finishedAt := if retry then None else Some(now),
          lease := None,
          availableAt := None)];
      }
    }

    method RequeueFailed(id: JobId, tenant: Option<string>, principal: Option<string>, reset: bool)
      returns (res: Result<Job, Error>)
      modifies this
      ensures State() == Apply(old(State()), JobStore.Op.RequeueFailed(id, tenant, principal, reset))
      ensures res.Ok? <==> Requeues(old(State()), id, tenant, principal)
      ensures res == Err(KeyError) <==> id !in old(jobs)
      ensures res == Err(ValueError) <==>
                id in old(jobs) && (old(jobs)[id].status != Failed || old(jobs)[id].attempt < old(jobs)[id].maxAttempts)
      ensures res.Ok? ==>
                && id in jobs && jobs[id].status == RetryPending && jobs[id].availableAt == None
                && jobs[id].attempt == if reset then 0 else old(jobs)[id].attempt
    {
      if id !in jobs {
        return Err(KeyError);
      }
      var job := jobs[id];
      if job.status != Failed || job.attempt < job.maxAttempts {
        return Err(ValueError);
      }
      if tenant.Some? && job.scope.tenant != tenant.value {
        return Err(PermissionError);
      }
      if principal.Some? && job.scope.principal != principal.value {
        return Err(PermissionError);
      }
      jobs := jobs[id := job.(
        status := RetryPending, attempt := if reset then 0 else job.attempt,
        finishedAt := None, errorType := None, availableAt := None)];
      AppendAction(id, Requeued(reset));
      return Ok(jobs[id]);
    }

    /** Any one operation; how other clients of the repository act on it. */
    method Perform(op: Op)
      modifies this
      ensures State() == Apply(old(State()), op)
    {
      match op {
        case Submit(id, r, now) => var _ := Submit(id, r, now);
        case ClaimNext(q, lease) => var _ := ClaimNext(q, lease.worker, lease.token);
        case Claim(id, lease, now) => var _ := Claim(id, lease.worker, lease.token, now);
        case Heartbeat(id, worker, token, checkpoint, now) =>
          var _ := Heartbeat(id, worker, token, checkpoint, now);
        case Write(id, target, data, None, now) => var _ := SetStatus(id, target, data, None, None, now);
        case Write(id, target, data, Some(lease), now) =>
          var _ := SetStatus(id, target, data, Some(lease.worker), Some(lease.token), now);
        case RequestCancel(id, now) => CancelNow(id, now);
        case CancelWrite(id, seen, now) =>
          var _ := SetStatus(id, CancelTarget(seen), CancelData(CancelTarget(seen)), None, None, now);
        case MarkInterrupted(before, types, now) => var _ := MarkInterrupted(before, types, now);
        case RecoverInterrupted(types, now) => var _ := RecoverInterrupted(types, now);
        case RequeueFailed(id, tenant, principal, reset) =>
          var _ := RequeueFailed(id, tenant, principal, reset);
      }
    }

    method PerformAll(ops: seq<Op>)
      modifies this
      ensures State() == After(old(State()), ops)
    {
      for i := 0 to |ops|
        invariant State() == After(old(State()), ops[..i])
      {
        Perform(ops[i]);
        assert ops[..i + 1][..i] == ops[..i];
      }
      assert ops[..|ops|] == ops;
    }

    /** `request_cancel`: a read, whatever other clients commit meanwhile, and a
        write without a test. */
    method RequestCancel(id: JobId, meanwhile: seq<Op>, now: Time) returns (res: Result<Job, Error>)
      modifies this
      ensures State() ==
              if id in old(jobs) && !Terminal(old(jobs)[id].status)
              then Apply(After(old(State()), meanwhile), CancelWrite(id, old(jobs)[id].status, now))
              else old(State())
      ensures meanwhile == [] ==> State() == Apply(old(State()), JobStore.Op.RequestCancel(id, now))
      ensures res.Ok? <==> id in old(jobs)
      ensures res.Ok? ==>
                id in jobs && res.value == jobs[id]
                && (res.value.status == CancelRequested || Terminal(res.value.status))
    {
      if id !in jobs {
        return Err(KeyError);
      }
      var current := jobs[id];
      if Terminal(current.status) {
        return Ok(current);
      }
      var target := CancelTarget(current.status);
      PerformAll(meanwhile);
      KeysStay(old(State()), meanwhile);
      res := SetStatus(id, target, CancelData(target), None, None, now);
    }
  }

  lemma {:induction false} KeysStay(s: Store, ops: seq<Op>)
    ensures s.jobs.Keys <= After(s, ops).jobs.Keys
  {
    if ops != [] {
      KeysStay(s, ops[..|ops| - 1]);
      KeysStep(After(s, ops[..|ops| - 1]), ops[|ops| - 1]);
    }
  }
}
