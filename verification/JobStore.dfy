/** The durable job table and its lifecycle journal as a value, and the effect of
    every committed repository operation on it.

    A row's `worker_id` and `lease_token` columns are written by the same
    statements and always set or cleared together, so they are one column here,
    `lease`. Timestamps are numbers: ISO strings of one time zone are ordered
    like the instants they name. */
module JobStore {
  import opened Wrappers

  type JobId = nat
  type Time = nat
  type Token = nat
  type WorkerId = string

  datatype Status =
    | Queued | Running | RetryPending | Interrupted
    | Succeeded | Failed | CancelRequested | Cancelled

  predicate Terminal(st: Status) {
    st == Succeeded || st == Failed || st == Cancelled
  }

  predicate Waiting(st: Status) {
    st == Queued || st == RetryPending
  }

  /** The statuses in which a worker is executing the job. */
  predicate Live(st: Status) {
    st == Running || st == CancelRequested
  }

  datatype Scope = Scope(tenant: string, principal: string)

  datatype Lease = Lease(worker: WorkerId, token: Token)

  datatype Job = Job(
    jobType: string,
    scope: Scope,
    idempotencyKey: string,
    maxAttempts: nat,
    createdAt: Time,
    status: Status,
    attempt: nat,
    startedAt: Option<Time>,
    heartbeatAt: Option<Time>,
    finishedAt: Option<Time>,
    availableAt: Option<Time>,
    errorType: Option<string>,
    resultReference: Option<string>,
    checkpoint: string,
    lease: Option<Lease>)

  /** One line of the append-only journal; its sequence number is its position. */
  datatype Entry =
    | Planned(jobType: string)
    | Started(worker: WorkerId)
    | Requeued(reset: bool)
    | StatusSet(status: Status, writer: Option<WorkerId>)

  datatype Store = Store(jobs: map<JobId, Job>, journal: map<JobId, seq<Entry>>)

  const EMPTY: Store := Store(map[], map[])

  /** The rows `claim_next` may consider. Empty `types` means every type. */
  datatype Query = Query(types: set<string>, limit: Option<nat>, now: Time)

  datatype Request = Request(
    jobType: string, workspaceId: string, scope: Scope,
    scopeVersion: int, maxAttempts: int, idempotencyKey: string)

  datatype WriteData = WriteData(
    errorType: Option<string>, resultReference: Option<string>, availableAt: Option<Time>)

  const NO_DATA: WriteData := WriteData(None, None, None)

  function History(s: Store, id: JobId): seq<Entry> {
    if id in s.journal then s.journal[id] else []
  }

  /** One row update together with the journal line of the same transaction. */
  function Commit(s: Store, id: JobId, job: Job, entry: Entry): Store {
    Store(s.jobs[id := job], s.journal[id := History(s, id) + [entry]])
  }

  // ----- submit -----

  predicate ValidRequest(r: Request) {
    && r.jobType != "" && r.workspaceId != "" && r.idempotencyKey != ""
    && r.scopeVersion >= 1 && r.maxAttempts >= 1
  }

  predicate KeyTaken(s: Store, key: string) {
    exists id :: id in s.jobs && s.jobs[id].idempotencyKey == key
  }

  function NewJob(r: Request, now: Time): Job
    requires ValidRequest(r)
  {
    Job(r.jobType, r.scope, r.idempotencyKey, r.maxAttempts, now, Queued, 0,
        None, None, None, None, None, None, "{}", None)
  }

  predicate Inserts(s: Store, id: JobId, r: Request) {
    ValidRequest(r) && !KeyTaken(s, r.idempotencyKey) && id !in s.jobs
  }

  function AfterSubmit(s: Store, id: JobId, r: Request, now: Time): Store {
    if Inserts(s, id, r) then Commit(s, id, NewJob(r, now), Planned(r.jobType)) else s
  }

  // ----- claim_next and claim -----

  function RunningIn(s: Store, scope: Scope): set<JobId> {
    set id | id in s.jobs && s.jobs[id].status == Running && s.jobs[id].scope == scope
  }

  predicate Available(job: Job, now: Time) {
    job.availableAt == None || job.availableAt.value <= now
  }

  predicate Claimable(job: Job, now: Time) {
    Waiting(job.status) && job.attempt < job.maxAttempts && Available(job, now)
  }

  predicate Eligible(s: Store, id: JobId, q: Query) {
    && id in s.jobs
    && Claimable(s.jobs[id], q.now)
    && (q.types == {} || s.jobs[id].jobType in q.types)
    && (q.limit == None || |RunningIn(s, s.jobs[id].scope)| < q.limit.value)
  }

  /** `a` precedes `b` in the claim order: load of the scope, age, id. */
  predicate Before(s: Store, a: JobId, b: JobId)
    requires a in s.jobs && b in s.jobs
  {
    var loadA, loadB := |RunningIn(s, s.jobs[a].scope)|, |RunningIn(s, s.jobs[b].scope)|;
    var bornA, bornB := s.jobs[a].createdAt, s.jobs[b].createdAt;
    loadA < loadB || (loadA == loadB && (bornA < bornB || (bornA == bornB && a < b)))
  }

  ghost predicate IsPick(s: Store, q: Query, id: JobId) {
    && Eligible(s, id, q)
    && forall other: JobId :: Eligible(s, other, q) && other != id ==> Before(s, id, other)
  }

  ghost predicate Idle(s: Store, q: Query) {
    forall id: JobId :: !Eligible(s, id, q)
  }

  /** The row `ORDER BY ... LIMIT 1` returns, if the query matches any. */
  ghost function Pick(s: Store, q: Query): (r: Option<JobId>)
    ensures r.Some? ==> IsPick(s, q, r.value)
  {
    if exists id: JobId :: IsPick(s, q, id) then
      var id: JobId :| IsPick(s, q, id);
      Some(id)
    else
      None
  }

  /** The row update of a claim. Only `claim_next` clears old outcome columns. */
  function ClaimedJob(job: Job, lease: Lease, now: Time, clear: bool): Job {
    job.(status := Running,
         attempt := job.attempt + 1,
         lease := Some(lease),
         startedAt := if job.startedAt == None then Some(now) else job.startedAt,
         heartbeatAt := Some(now),
         availableAt := None,
         finishedAt := if clear then None else job.finishedAt,
         errorType := if clear then None else job.errorType)
  }

  function AfterClaimOf(s: Store, id: JobId, lease: Lease, now: Time, clear: bool): Store
    requires id in s.jobs
  {
    Commit(s, id, ClaimedJob(s.jobs[id], lease, now, clear), Started(lease.worker))
  }

  predicate ValidLimit(limit: Option<nat>) {
    limit == None || limit.value >= 1
  }

  // ----- heartbeat -----

  /** The lease test of the WHERE clause; the token is optional in `heartbeat`. */
  predicate Holds(job: Job, worker: WorkerId, token: Option<Token>) {
    && job.lease.Some?
    && job.lease.value.worker == worker
    && (token == None || job.lease.value.token == token.value)
  }

  predicate HeartbeatLands(s: Store, id: JobId, worker: WorkerId, token: Option<Token>) {
    id in s.jobs && s.jobs[id].status == Running && Holds(s.jobs[id], worker, token)
  }

  function AfterHeartbeat(s: Store, id: JobId, worker: WorkerId, token: Option<Token>,
                          checkpoint: string, now: Time): Store {
    if HeartbeatLands(s, id, worker, token) then
      s.(jobs := s.jobs[id := s.jobs[id].(heartbeatAt := Some(now), checkpoint := checkpoint)])
    else
      s
  }

  // ----- set_status -----

  function Written(job: Job, target: Status, data: WriteData, now: Time): Job {
    job.(status := target,
         finishedAt := if Terminal(target) then Some(now) else None,
         errorType := data.errorType,
         resultReference := data.resultReference,
         availableAt := data.availableAt,
         lease := if Terminal(target) then None else job.lease)
  }

  /** The write of `set_status`: guarded by a lease when one is given. */
  predicate WriteLands(s: Store, id: JobId, lease: Option<Lease>) {
    id in s.jobs && (lease == None || s.jobs[id].lease == lease)
  }

  function AfterWrite(s: Store, id: JobId, target: Status, data: WriteData,
                      lease: Option<Lease>, now: Time): Store {
    if WriteLands(s, id, lease) then
      Commit(s, id, Written(s.jobs[id], target, data, now),
             StatusSet(target, if lease == None then None else Some(lease.value.worker)))
    else
      s
  }

  // ----- request_cancel -----

  /** What `request_cancel` decides to write after reading status `seen`. */
  function CancelTarget(seen: Status): Status {
    if seen == Queued || seen == RetryPending || seen == Interrupted then Cancelled
    else CancelRequested
  }

  function CancelData(target: Status): WriteData {
    if target == Cancelled then NO_DATA.(errorType := Some("CancelledByUser")) else NO_DATA
  }

  /** The write half alone, for a status read earlier. */
  function AfterCancelWrite(s: Store, id: JobId, seen: Status, now: Time): Store {
    AfterWrite(s, id, CancelTarget(seen), CancelData(CancelTarget(seen)), None, now)
  }

  function AfterRequestCancel(s: Store, id: JobId, now: Time): Store {
    if id !in s.jobs || Terminal(s.jobs[id].status) then s
    else AfterCancelWrite(s, id, s.jobs[id].status, now)
  }

  // ----- crash recovery -----

  predicate InTypes(job: Job, types: Option<set<string>>) {
    types == None || job.jobType in types.value
  }

  /** A live job whose last heartbeat is older than the threshold. */
  predicate Stale(job: Job, before: Time, types: Option<set<string>>) {
    && Live(job.status)
    && (job.heartbeatAt == None || job.heartbeatAt.value < before)
    && InTypes(job, types)
  }

  function Marked(job: Job, now: Time): Job {
    var cancelling := job.status == CancelRequested;
    job.(status := if cancelling then Cancelled else Interrupted,
         finishedAt := if cancelling then Some(now) else None,
         lease := None,
         availableAt := None,
         errorType := Some(if cancelling then "CancelledAfterWorkerLost" else "ProcessRestart"))
  }

  function AfterMark(s: Store, before: Time, types: Option<set<string>>, now: Time): Store {
    s.(jobs := map id | id in s.jobs ::
         if Stale(s.jobs[id], before, types) then Marked(s.jobs[id], now) else s.jobs[id])
  }

  predicate Recoverable(job: Job, types: Option<set<string>>) {
    job.status == Interrupted && InTypes(job, types)
  }

  function Recovered(job: Job, now: Time): Job {
    var retry := job.attempt < job.maxAttempts;
    job.(status := if retry then RetryPending else Failed,
         finishedAt := if retry then None else Some(now),
         lease := None,
         availableAt := None)
  }

  function AfterRecover(s: Store, types: Option<set<string>>, now: Time): Store {
    s.(jobs := map id | id in s.jobs ::
         if Recoverable(s.jobs[id], types) then Recovered(s.jobs[id], now) else s.jobs[id])
  }

  // ----- requeue_failed -----

  predicate Exhausted(job: Job) {
    job.status == Failed && job.attempt >= job.maxAttempts
  }

  predicate Authorized(job: Job, tenant: Option<string>, principal: Option<string>) {
    && (tenant == None || job.scope.tenant == tenant.value)
    && (principal == None || job.scope.principal == principal.value)
  }

  predicate Requeues(s: Store, id: JobId, tenant: Option<string>, principal: Option<string>) {
    id in s.jobs && Exhausted(s.jobs[id]) && Authorized(s.jobs[id], tenant, principal)
  }

  function RequeuedJob(job: Job, reset: bool): Job {
    job.(status := RetryPending,
         attempt := if reset then 0 else job.attempt,
         finishedAt := None,
         errorType := None,
         availableAt := None)
  }

  function AfterRequeue(s: Store, id: JobId, tenant: Option<string>, principal: Option<string>,
                        reset: bool): Store {
    if Requeues(s, id, tenant, principal) then
      Commit(s, id, RequeuedJob(s.jobs[id], reset), Requeued(reset))
    else
      s
  }

  // ----- one committed operation -----

  /** The committed operations of the repository. `Write` is `set_status`: guarded
      by a lease when a worker reports the end of an attempt, and without one when
      another client closes a job. `RequestCancel` is the read and the write of
      `request_cancel` as one step, `CancelWrite` its write alone, after `seen` was
      read at some earlier time. An operation that raises changes nothing. */
  datatype Op =
    | Submit(newId: JobId, request: Request, now: Time)
    | ClaimNext(query: Query, lease: Lease)
    | Claim(id: JobId, lease: Lease, now: Time)
    | Heartbeat(id: JobId, worker: WorkerId, token: Option<Token>, checkpoint: string, now: Time)
    | Write(id: JobId, target: Status, data: WriteData, guard: Option<Lease>, now: Time)
    | RequestCancel(id: JobId, now: Time)
    | CancelWrite(id: JobId, seen: Status, now: Time)
    | MarkInterrupted(before: Time, types: Option<set<string>>, now: Time)
    | RecoverInterrupted(types: Option<set<string>>, now: Time)
    | RequeueFailed(id: JobId, tenant: Option<string>, principal: Option<string>, reset: bool)

  predicate WorkerTarget(target: Status) {
    Terminal(target) || target == RetryPending
  }

  /** The arguments clients use: a worker writes one of four statuses, a write
      without a lease closes the job, and a cancellation only follows the reading
      of a status that is not terminal. */
  predicate WellFormed(op: Op) {
    && (op.Write? ==> Terminal(op.target) || (op.guard.Some? && op.target == RetryPending))
    && (op.CancelWrite? ==> !Terminal(op.seen))
  }

  /** The job an operation claims in state `s`, if any. */
  ghost function Claims(s: Store, op: Op): (r: Option<JobId>)
    ensures r.Some? ==> r.value in s.jobs && (exists now :: Claimable(s.jobs[r.value], now))
  {
    match op
    case ClaimNext(q, _) => if ValidLimit(q.limit) then Pick(s, q) else None
    case Claim(id, _, now) => if id in s.jobs && Claimable(s.jobs[id], now) then Some(id) else None
    case _ => None
  }

  ghost function Apply(s: Store, op: Op): Store {
    match op
    case Submit(id, r, now) => AfterSubmit(s, id, r, now)
    case ClaimNext(q, lease) =>
      (match Claims(s, op) case None => s case Some(id) => AfterClaimOf(s, id, lease, q.now, true))
    case Claim(id, lease, now) =>
      if Claims(s, op) == None then s else AfterClaimOf(s, id, lease, now, false)
    case Heartbeat(id, worker, token, checkpoint, now) =>
      AfterHeartbeat(s, id, worker, token, checkpoint, now)
    case Write(id, target, data, guard, now) => AfterWrite(s, id, target, data, guard, now)
    case RequestCancel(id, now) => AfterRequestCancel(s, id, now)
    case CancelWrite(id, seen, now) => AfterCancelWrite(s, id, seen, now)
    case MarkInterrupted(before, types, now) => AfterMark(s, before, types, now)
    case RecoverInterrupted(types, now) => AfterRecover(s, types, now)
    case RequeueFailed(id, tenant, principal, reset) => AfterRequeue(s, id, tenant, principal, reset)
  }
}
