/** A worker: claim one job, run its handler while anything else happens to the
    repository, report the outcome under the lease. */
module JobWorker {
  import opened Wrappers
  import opened JobStore
  import opened JobInvariants
  import opened JobRuns
  import opened JobScheduling
  import opened JobRepository

  /** How a handler ends. */
  datatype Outcome =
    | Returned(reference: Option<string>)
    | RaisedCancelled
    | RaisedError(errorType: string)

  /** One call of `run_once` with everything it does not decide itself: its clock
      readings, the token drawn, the operations committed by others while the
      handler runs, how the handler ends, and the operations committed between
      the ownership check and the final write. */
  datatype Turn = Turn(
    start: Time, token: Token, during: seq<Op>, outcome: Outcome,
    gap: seq<Op>, finish: Time, jitter: nat)

  predicate TurnOk(turn: Turn) {
    AllWellFormed(turn.during) && AllWellFormed(turn.gap)
  }

  datatype Backoff = Backoff(base: nat, cap: nat, jitter: nat)

  function Pow2(n: nat): nat {
    if n == 0 then 1 else 2 * Pow2(n - 1)
  }

  /** How long a failed attempt waits, without jitter. */
  function Delay(b: Backoff, attempt: nat): nat {
    var delay := b.base * Pow2(if attempt >= 1 then attempt - 1 else 0);
    if b.cap > 0 && b.cap < delay then b.cap else delay
  }

  function RetryAvailableAt(b: Backoff, attempt: nat, now: Time, jitter: nat): Option<Time> {
    if b.base == 0 then None else Some(now + Delay(b, attempt) + jitter)
  }

  lemma {:induction false} Pow2Monotone(m: nat, n: nat)
    requires m <= n
    ensures 1 <= Pow2(m) <= Pow2(n)
  {
    if n > 0 {
      if m == n { Pow2Monotone(m - 1, n - 1); } else { Pow2Monotone(m, n - 1); }
    }
  }

  function Least(a: nat, b: nat): nat {
    if a <= b then a else b
  }

  /** The law of the delay: the base at the first attempt, doubled with each
      further one, and a positive cap cuts it. */
  lemma DelayLaw(b: Backoff, attempt: nat)
    requires attempt >= 1
    ensures Delay(b.(cap := 0), 1) == b.base
    ensures Delay(b.(cap := 0), attempt + 1) == 2 * Delay(b.(cap := 0), attempt)
    ensures b.cap > 0 ==> Delay(b, attempt) == Least(b.cap, Delay(b.(cap := 0), attempt))
  {
    Doubled(b.base, Pow2(attempt - 1));
  }

  lemma Doubled(k: nat, x: nat)
    ensures k * (2 * x) == 2 * (k * x)
  {
  }

  /** A later attempt never waits less, and no wait exceeds a positive cap. */
  lemma BackoffGrows(b: Backoff, a: nat, a': nat)
    requires a <= a'
    ensures Delay(b, a) <= Delay(b, a')
    ensures b.cap > 0 ==> Delay(b, a') <= b.cap
    ensures b.cap == 0 || b.base <= b.cap ==> b.base <= Delay(b, a)
  {
    var x, y := Pow2(if a >= 1 then a - 1 else 0), Pow2(if a' >= 1 then a' - 1 else 0);
    Pow2Monotone(if a >= 1 then a - 1 else 0, if a' >= 1 then a' - 1 else 0);
    ScaleMonotone(b.base, 1, x);
    ScaleMonotone(b.base, x, y);
  }

  lemma ScaleMonotone(k: nat, x: nat, y: nat)
    requires x <= y
    ensures k * x <= k * y
  {
  }

  /** `_still_owned` as it reads state `s`. */
  predicate StillOwned(s: Store, id: JobId, lease: Lease) {
    id in s.jobs && s.jobs[id].status == Running && s.jobs[id].lease == Some(lease)
  }

  /** Operation `i` neither claims `id` nor leaves it interrupted or terminal. */
  ghost predicate LeftAlone(s: Store, ops: seq<Op>, i: nat, id: JobId)
    requires i < |ops|
  {
    && Claims(After(s, ops[..i]), ops[i]) != Some(id)
    && !(id in After(s, ops[..i + 1]).jobs && Ended(After(s, ops[..i + 1]).jobs[id]))
  }

  /** A lease that nobody draws again stands exactly as long as the job is left alone. */
  lemma {:induction false} LeaseSince(s: Store, ops: seq<Op>, id: JobId, lease: Lease)
    requires Inv(s) && AllWellFormed(ops) && id in s.jobs
    requires forall op :: op in ops && IsClaim(op) ==> op.lease != lease
    ensures Inv(After(s, ops)) && id in After(s, ops).jobs
    ensures After(s, ops).jobs[id].lease == Some(lease) <==>
            s.jobs[id].lease == Some(lease) && forall i :: 0 <= i < |ops| ==> LeftAlone(s, ops, i, id)
    ensures After(s, ops).jobs[id].lease == Some(lease) ==> After(s, ops).jobs[id].attempt == s.jobs[id].attempt
    ensures After(s, ops).jobs[id].maxAttempts == s.jobs[id].maxAttempts
  {
    hide *;
    if ops == [] {
      AfterNothing(s);
    } else {
      var pre, op := ops[..|ops| - 1], ops[|ops| - 1];
      assert ops == pre + [op];
      PrefixWellFormed(pre, op);
      LeaseSince(s, pre, id, lease);
      AfterSnoc(s, pre, op);
      StepInv(After(s, pre), op);
      LeaseStep(After(s, pre), op, id);
      if After(s, pre).jobs[id].lease.Some? && Claims(After(s, pre), op) != Some(id) { AttemptStep(After(s, pre), op, id); }
      KeyStep(After(s, pre), op, id);
      ClaimsIsClaim(After(s, pre), op);
      LeftAloneLast(s, pre, op, id);
      forall i | 0 <= i < |pre| { LeftAloneBefore(s, pre, op, i, id); }
    }
  }

  /** Only a claim counts an attempt while somebody holds the job. */
  lemma AttemptStep(s: Store, op: Op, id: JobId)
    requires Inv(s) && WellFormed(op) && id in s.jobs && s.jobs[id].lease.Some? && Claims(s, op) != Some(id)
    ensures id in Apply(s, op).jobs && Apply(s, op).jobs[id].attempt == s.jobs[id].attempt
  {
    assert RowOk(s.jobs[id], s.journal[id]);
  }

  lemma AfterNothing(s: Store)
    ensures After(s, []) == s
  {
  }

  lemma PrefixWellFormed(pre: seq<Op>, op: Op)
    requires AllWellFormed(pre + [op])
    ensures AllWellFormed(pre) && WellFormed(op)
  {
    assert op in pre + [op] && forall o :: o in pre ==> o in pre + [op];
  }

  lemma ClaimsIsClaim(s: Store, op: Op)
    ensures Claims(s, op).Some? ==> IsClaim(op)
  {
  }

  lemma LeftAloneBefore(s: Store, pre: seq<Op>, op: Op, i: nat, id: JobId)
    requires i < |pre|
    ensures LeftAlone(s, pre + [op], i, id) == LeftAlone(s, pre, i, id)
  {
    hide After, Claims, Ended;
    assert (pre + [op])[..i] == pre[..i] && (pre + [op])[..i + 1] == pre[..i + 1];
  }

  lemma LeftAloneLast(s: Store, pre: seq<Op>, op: Op, id: JobId)
    ensures LeftAlone(s, pre + [op], |pre|, id) <==>
            var here := After(s, pre);
            Claims(here, op) != Some(id) && !(id in Apply(here, op).jobs && Ended(Apply(here, op).jobs[id]))
  {
    hide Apply, Claims, After, Ended;
    assert (pre + [op])[..|pre|] == pre && (pre + [op])[..|pre| + 1] == pre + [op];
    AfterSnoc(s, pre, op);
  }

  lemma ClaimFirst(s: Store, q: Query, lease: Lease, id: JobId)
    requires ValidLimit(q.limit) && Pick(s, q) == Some(id)
    ensures After(s, [Op.ClaimNext(q, lease)]) == AfterClaimOf(s, id, lease, q.now, true)
  {
    hide Pick;
    AfterNothing(s);
    AfterSnoc(s, [], Op.ClaimNext(q, lease));
    assert [] + [Op.ClaimNext(q, lease)] == [Op.ClaimNext(q, lease)];
  }

  /** A stale running job loses its lease to `MarkInterrupted`. */
  lemma MarkTakes(s: Store, id: JobId, before: Time, now: Time)
    requires id in s.jobs && s.jobs[id].status == Running && Stale(s.jobs[id], before, None)
    ensures !LeftAlone(s, [MarkInterrupted(before, None, now)], 0, id)
  {
    AfterNothing(s);
    LeftAloneLast(s, [], MarkInterrupted(before, None, now), id);
    assert [] + [MarkInterrupted(before, None, now)] == [MarkInterrupted(before, None, now)];
  }

  lemma SubmittedSample()
    ensures Exec([Submit(0, SAMPLE, 1)]).jobs == map[0 := NewJob(SAMPLE, 1)]
  {
    var ops := [Submit(0, SAMPLE, 1)];
    assert ops[..0] == [];
    assert Inserts(EMPTY, 0, SAMPLE);
  }

  lemma SamplePick(s: Store, q: Query)
    requires s.jobs == map[0 := NewJob(SAMPLE, 1)] && SAMPLE.jobType in q.types && ValidLimit(q.limit)
    ensures Pick(s, q) == Some(0)
  {
    assert RunningIn(s, SAMPLE.scope) == {};
    assert Eligible(s, 0, q);
    assert forall other: JobId :: Eligible(s, other, q) ==> other == 0;
    assert IsPick(s, q, 0);
    PickIsLeast(s, q);
  }

  lemma SampleClaimed(s: Store, lease: Lease)
    requires s.jobs == map[0 := NewJob(SAMPLE, 1)]
    ensures var here := AfterClaimOf(s, 0, lease, 2, true);
            && 0 in here.jobs && here.jobs[0].status == Running && here.jobs[0].lease == Some(lease)
            && StillOwned(here, 0, lease) && Stale(here.jobs[0], 5, None)
  {
  }

  class PersistentJobWorker {
    const repository: PersistentJobRepository
    const handlers: set<string>
    const workerId: WorkerId
    const maxRunning: Option<nat>
    const backoff: Backoff

    constructor (repository: PersistentJobRepository, handlers: set<string>, workerId: WorkerId,
                 maxRunning: Option<nat>, backoff: Backoff)
      requires handlers != {} && ValidLimit(maxRunning)
      ensures this.repository == repository && this.handlers == handlers && this.workerId == workerId
      ensures this.maxRunning == maxRunning && this.backoff == backoff
    {
      this.repository, this.handlers, this.workerId := repository, handlers, workerId;
      this.maxRunning, this.backoff := maxRunning, backoff;
    }

    function NextQuery(turn: Turn): Query {
      Query(handlers, maxRunning, turn.start)
    }

    function LeaseOf(turn: Turn): Lease {
      Lease(workerId, turn.token)
    }

    function ClaimOp(turn: Turn): Op {
      Op.ClaimNext(NextQuery(turn), LeaseOf(turn))
    }

    /** The final write the worker decides on in state `s`, when its check passes. */
    function FinalWrite(s: Store, id: JobId, turn: Turn): (r: Option<Op>)
      ensures r.Some? ==> r.value.Write? && WorkerTarget(r.value.target) && CheckPasses(s, r.value)
      ensures r.Some? ==> r.value.id == id && r.value.guard == Some(LeaseOf(turn))
      ensures r.Some? && turn.outcome.Returned? ==> r.value.target == Succeeded
      ensures r.Some? && turn.outcome.RaisedCancelled? ==> r.value.target == Cancelled
      ensures r.Some? && turn.outcome.RaisedError? ==>
                r.value.target == if s.jobs[id].attempt < s.jobs[id].maxAttempts then RetryPending else Failed
      ensures StillOwned(s, id, LeaseOf(turn)) ==> r.Some?
    {
      if id !in s.jobs then None
      else
        var job := s.jobs[id];
        match turn.outcome
        case RaisedCancelled =>
          if Live(job.status) && job.lease.Some? && job.lease.value.worker == workerId then
            Some(Op.Write(id, Cancelled, WriteData(Some("JobCancelled"), None, None), Some(LeaseOf(turn)), turn.finish))
          else None
        case RaisedError(errorType) =>
          if StillOwned(s, id, LeaseOf(turn)) then
            Some(Op.Write(id, if job.attempt < job.maxAttempts then RetryPending else Failed,
                          WriteData(Some(errorType), None,
                                    RetryAvailableAt(backoff, job.attempt, turn.finish, turn.jitter)),
                          Some(LeaseOf(turn)), turn.finish))
          else None
        case Returned(reference) =>
          if StillOwned(s, id, LeaseOf(turn)) then
            Some(Op.Write(id, Succeeded, WriteData(None, reference, None), Some(LeaseOf(turn)), turn.finish))
          else None
    }

    /** The operations one turn commits, starting from state `s`. */
    ghost function TurnOps(s: Store, turn: Turn): seq<Op> {
      match Pick(s, NextQuery(turn))
      case None => [ClaimOp(turn)]
      case Some(id) =>
        var opening := [ClaimOp(turn)] + turn.during;
        match FinalWrite(After(s, opening), id, turn)
        case None => opening
        case Some(write) => opening + turn.gap + [write]
    }

    /** The state in which the final write of a turn is made. */
    ghost function BeforeWrite(s: Store, turn: Turn): Store {
      After(s, [ClaimOp(turn)] + turn.during + turn.gap)
    }

    /** What a turn reports: the job it claimed, or KeyError when it decided to
        write and its lease was gone by then. */
    ghost function TurnResult(s: Store, turn: Turn): Result<Option<JobId>, Error> {
      match Pick(s, NextQuery(turn))
      case None => Ok(None)
      case Some(id) =>
        if FinalWrite(After(s, [ClaimOp(turn)] + turn.during), id, turn).Some?
           && !WriteLands(BeforeWrite(s, turn), id, Some(LeaseOf(turn)))
        then Err(KeyError) else Ok(Some(id))
    }

    method RunOnce(turn: Turn) returns (res: Result<Option<JobId>, Error>)
      requires ValidLimit(maxRunning)
      modifies repository
      ensures repository.State() == After(old(repository.State()), TurnOps(old(repository.State()), turn))
      ensures res == TurnResult(old(repository.State()), turn)
      ensures res == Ok(None) ==> repository.State() == old(repository.State())
    {
      ghost var s := repository.State();
      var first := repository.ClaimNext(NextQuery(turn), workerId, turn.token);
      assert After(s, [ClaimOp(turn)]) == Apply(After(s, []), ClaimOp(turn)) by {
        assert [ClaimOp(turn)][..0] == [];
      }
      var claimed := first.value;
      if claimed == None {
        return Ok(None);
      }
      repository.PerformAll(turn.during);
      AfterConcat(s, [ClaimOp(turn)], turn.during);
      var write := FinalWrite(repository.State(), claimed.value, turn);
      if write.Some? {
        repository.PerformAll(turn.gap);
        ghost var opening := [ClaimOp(turn)] + turn.during;
        AfterConcat(s, opening, turn.gap);
        AfterSnoc(s, opening + turn.gap, write.value);
        var w := write.value;
        var written := repository.SetStatus(w.id, w.target, w.data, Some(workerId), Some(turn.token), w.now);
        if written.Err? { return Err(written.error); }
      }
      return Ok(claimed);
    }

    /** When a turn raises nothing, whatever is committed between its check and its
        write by clients that drew other tokens: it decides not to write, or its
        lease still stands at the check and no operation behind the check claims,
        interrupts or ends the job. */
    lemma TurnSucceedsIff(s: Store, turn: Turn)
      requires Inv(s) && TurnOk(turn) && ValidLimit(maxRunning) && Pick(s, NextQuery(turn)).Some?
      requires forall op :: op in turn.gap && IsClaim(op) ==> op.lease != LeaseOf(turn)
      ensures var id, here := Pick(s, NextQuery(turn)).value, After(s, [ClaimOp(turn)] + turn.during);
              TurnResult(s, turn).Ok? <==>
                FinalWrite(here, id, turn).None?
                || (here.jobs[id].lease == Some(LeaseOf(turn))
                    && forall i :: 0 <= i < |turn.gap| ==> LeftAlone(here, turn.gap, i, id))
    {
      var id, opening := Pick(s, NextQuery(turn)).value, [ClaimOp(turn)] + turn.during;
      var here := After(s, opening);
      hide Apply, Claims, Inv, Pick, LeftAlone, After;
      assert AllWellFormed(opening);
      AttemptsConserved(s, opening);
      AfterConcat(s, opening, turn.gap);
      if FinalWrite(here, id, turn).Some? {
        LeaseSince(here, turn.gap, id, LeaseOf(turn));
      }
    }

    /** A job interrupted between the check and the write makes the turn raise. */
    lemma TurnCanRaise() returns (s: Store, turn: Turn)
      requires SAMPLE.jobType in handlers && ValidLimit(maxRunning)
      ensures s == Exec([Submit(0, SAMPLE, 1)]) && turn.gap == [MarkInterrupted(5, None, 6)] && TurnOk(turn)
      ensures TurnResult(s, turn) == Err(KeyError)
    {
      hide After, Apply, Pick, LeftAlone, Claims, Exec, Inv, StillOwned, Stale, AfterClaimOf;
      turn := Turn(2, 7, [], Returned(None), [MarkInterrupted(5, None, 6)], 9, 0);
      s := Exec([Submit(0, SAMPLE, 1)]);
      SubmittedSample();
      SamplePick(s, NextQuery(turn));
      ClaimFirst(s, NextQuery(turn), LeaseOf(turn), 0);
      assert [ClaimOp(turn)] + turn.during == [ClaimOp(turn)];
      var here := After(s, [ClaimOp(turn)]);
      SampleClaimed(s, LeaseOf(turn));
      MarkTakes(here, 0, 5, 6);
      ReachableInv([Submit(0, SAMPLE, 1)]);
      TurnSucceedsIff(s, turn);
      TurnFinds(s, turn);
    }

    /** When the worker reports at all: after a cancellation while its name still
        holds the live job, otherwise while the job runs under its lease. */
    predicate Reports(s: Store, id: JobId, turn: Turn) {
      && id in s.jobs
      && if turn.outcome.RaisedCancelled? then
           Live(s.jobs[id].status) && s.jobs[id].lease.Some? && s.jobs[id].lease.value.worker == workerId
         else StillOwned(s, id, LeaseOf(turn))
    }

    /** What a landed report leaves in the row. A failed attempt with more to come
        can be claimed again from exactly the end of its delay on. */
    ghost predicate Reported(row: Job, turn: Turn, attempt: nat) {
      && row.attempt == attempt
      && row.lease == (if Terminal(row.status) then None else Some(LeaseOf(turn)))
      && row.finishedAt == (if Terminal(row.status) then Some(turn.finish) else None)
      && match turn.outcome
         case Returned(reference) =>
           row.status == Succeeded && row.resultReference == reference && row.errorType == None
         case RaisedCancelled =>
           row.status == Cancelled && row.resultReference == None && row.errorType == Some("JobCancelled")
         case RaisedError(errorType) =>
           && row.resultReference == None && row.errorType == Some(errorType)
           && if attempt < row.maxAttempts then
                && row.status == RetryPending
                && forall now: Time :: Claimable(row, now) <==>
                     backoff.base == 0 || now >= turn.finish + Delay(backoff, attempt) + turn.jitter
              else row.status == Failed
    }

    /** The row a turn leaves behind: nothing is written when the worker does not
        report or its lease is gone, and otherwise the row says how the handler ended. */
    lemma TurnStores(s: Store, turn: Turn)
      requires Inv(s) && TurnOk(turn) && ValidLimit(maxRunning) && Pick(s, NextQuery(turn)).Some?
      requires forall op :: op in turn.gap && IsClaim(op) ==> op.lease != LeaseOf(turn)
      ensures var id, here := Pick(s, NextQuery(turn)).value, After(s, [ClaimOp(turn)] + turn.during);
              var before, after := BeforeWrite(s, turn), After(s, TurnOps(s, turn));
              && (!Reports(here, id, turn) ==> after == here)
              && (Reports(here, id, turn) && !WriteLands(before, id, Some(LeaseOf(turn))) ==> after == before)
              && (Reports(here, id, turn) && WriteLands(before, id, Some(LeaseOf(turn))) ==>
                    && id in after.jobs && after.jobs == before.jobs[id := after.jobs[id]]
                    && Reported(after.jobs[id], turn, here.jobs[id].attempt))
    {
      var id, opening := Pick(s, NextQuery(turn)).value, [ClaimOp(turn)] + turn.during;
      var here, before := After(s, opening), BeforeWrite(s, turn);
      hide Apply, Claims, Inv, Pick, LeftAlone, After, Reported;
      assert AllWellFormed(opening);
      AttemptsConserved(s, opening);
      AfterConcat(s, opening, turn.gap);
      if Reports(here, id, turn) {
        var write := FinalWrite(here, id, turn).value;
        AfterSnoc(s, opening + turn.gap, write);
        LeaseSince(here, turn.gap, id, LeaseOf(turn));
        WriteStores(here, before, id, turn);
      }
    }

    lemma WriteStores(here: Store, before: Store, id: JobId, turn: Turn)
      requires Reports(here, id, turn)
      requires id in before.jobs && before.jobs[id].maxAttempts == here.jobs[id].maxAttempts
      requires before.jobs[id].lease == Some(LeaseOf(turn)) ==> before.jobs[id].attempt == here.jobs[id].attempt
      ensures FinalWrite(here, id, turn).Some?
      ensures var after := Apply(before, FinalWrite(here, id, turn).value);
              if WriteLands(before, id, Some(LeaseOf(turn))) then
                && id in after.jobs && after.jobs == before.jobs[id := after.jobs[id]]
                && Reported(after.jobs[id], turn, here.jobs[id].attempt)
              else after == before
    {
      var write := FinalWrite(here, id, turn).value;
      hide Delay;
      if WriteLands(before, id, Some(LeaseOf(turn))) {
        assert Apply(before, write).jobs[id] == Written(before.jobs[id], write.target, write.data, write.now);
      }
    }

    /** The store after the first `n` turns. */
    ghost function StateAt(s: Store, schedule: seq<Turn>, n: nat): Store
      requires n <= |schedule|
    {
      if n == 0 then s
      else var before := StateAt(s, schedule, n - 1); After(before, TurnOps(before, schedule[n - 1]))
    }

    ghost function ResultAt(s: Store, schedule: seq<Turn>, n: nat): Result<Option<JobId>, Error>
      requires n < |schedule|
    {
      TurnResult(StateAt(s, schedule, n), schedule[n])
    }

    /** Turns one after the other until one finds nothing or raises. `ran` counts
        the turns that claimed a job. */
    method RunUntilIdle(schedule: seq<Turn>, maxJobs: int)
      returns (res: Result<seq<JobId>, Error>, ghost log: seq<Op>, ghost ran: nat)
      requires ValidLimit(maxRunning) && maxJobs <= |schedule|
      requires Inv(repository.State())
      requires forall turn :: turn in schedule ==> TurnOk(turn)
      modifies repository
      ensures maxJobs < 1 <==> res == Err(ValueError)
      ensures res.Err? ==> res.error == ValueError || res.error == KeyError
      ensures AllWellFormed(log) && repository.State() == After(old(repository.State()), log)
      ensures Inv(repository.State())
      ensures ran <= Budget(old(repository.State())) + Grants(old(repository.State()), log)
      ensures res == Err(KeyError) ==>
                && 0 < ran <= maxJobs && ResultAt(old(repository.State()), schedule, ran - 1) == Err(KeyError)
                && repository.State() == StateAt(old(repository.State()), schedule, ran)
                && forall i :: 0 <= i < ran - 1 ==> ResultAt(old(repository.State()), schedule, i).Ok?
      ensures res.Ok? ==>
                && ran == |res.value| <= maxJobs
                && repository.State() == StateAt(old(repository.State()), schedule, ran)
                && (forall i :: 0 <= i < ran ==> ResultAt(old(repository.State()), schedule, i) == Ok(Some(res.value[i])))
                && (ran < maxJobs ==> Idle(repository.State(), NextQuery(schedule[ran])))
    {
      hide *;
      ghost var s := repository.State();
      log, ran := [], 0;
      NoTurns(s, schedule);
      if maxJobs < 1 {
        AttemptsConserved(s, []);
        return Err(ValueError), log, ran;
      }
      var results: seq<JobId> := [];
      while |results| < maxJobs
        invariant |results| <= maxJobs && ran == |results|
        invariant AllWellFormed(log) && repository.State() == After(s, log)
        invariant ran <= ClaimsIn(s, log)
        invariant repository.State() == StateAt(s, schedule, ran)
        invariant forall i :: 0 <= i < ran ==> ResultAt(s, schedule, i) == Ok(Some(results[i]))
      {
        var turn := schedule[|results|];
        ghost var here, before := repository.State(), log;
        ghost var ops := TurnOps(here, turn);
        var result := RunOnce(turn);
        assert turn in schedule;
        TurnWellFormed(here, turn);
        AfterConcat(s, log, ops);
        TurnClaims(here, turn);
        TurnFinds(here, turn);
        NextState(s, schedule, ran);
        WellFormedJoin(log, ops);
        log := log + ops;
        if result == Ok(None) {
          PickIsLeast(here, NextQuery(turn));
          assert repository.State() == here;
          break;
        }
        ran := ran + 1;
        if result.Err? {
          AttemptsConserved(s, log);
          return Err(result.error), log, ran;
        }
        results := results + [result.value.value];
      }
      AttemptsConserved(s, log);
      res := Ok(results);
    }

    lemma NoTurns(s: Store, schedule: seq<Turn>)
      ensures After(s, []) == s && StateAt(s, schedule, 0) == s && AllWellFormed([])
    {
    }

    lemma NextState(s: Store, schedule: seq<Turn>, n: nat)
      requires n < |schedule|
      ensures StateAt(s, schedule, n + 1) == After(StateAt(s, schedule, n), TurnOps(StateAt(s, schedule, n), schedule[n]))
      ensures ResultAt(s, schedule, n) == TurnResult(StateAt(s, schedule, n), schedule[n])
    {
    }

    lemma TurnFinds(s: Store, turn: Turn)
      ensures TurnResult(s, turn) == Ok(None) <==> Pick(s, NextQuery(turn)) == None
      ensures TurnResult(s, turn).Err? ==> TurnResult(s, turn).error == KeyError
    {
    }

    lemma WellFormedJoin(a: seq<Op>, b: seq<Op>)
      requires AllWellFormed(a) && AllWellFormed(b)
      ensures AllWellFormed(a + b)
    {
    }

    lemma TurnWellFormed(s: Store, turn: Turn)
      requires TurnOk(turn)
      ensures AllWellFormed(TurnOps(s, turn))
    {
    }

    lemma TurnClaims(s: Store, turn: Turn)
      requires ValidLimit(maxRunning)
      ensures ClaimsIn(s, TurnOps(s, turn)) >= if Pick(s, NextQuery(turn)).Some? then 1 else 0
    {
      if Pick(s, NextQuery(turn)).Some? {
        var ops := TurnOps(s, turn);
        assert ops == [ClaimOp(turn)] + ops[1..];
        AfterConcat(s, [ClaimOp(turn)], ops[1..]);
        assert [ClaimOp(turn)][..0] == [];
        assert After(s, []) == s && ClaimsIn(s, [ClaimOp(turn)]) == 1;
      }
    }

    /** A turn whose check and write are one step never breaks a cancellation, and
        a write that looked at the token lands. */
    lemma AtomicFinishLands(s: Store, id: JobId, turn: Turn)
      requires Inv(s) && FinalWrite(s, id, turn).Some?
      ensures id in Apply(s, FinalWrite(s, id, turn).value).jobs
      ensures WriteLands(s, id, Some(LeaseOf(turn))) <==>
                (turn.outcome.RaisedCancelled? ==> s.jobs[id].lease == Some(LeaseOf(turn)))
      ensures s.jobs[id].status == CancelRequested ==>
                var after := Apply(s, FinalWrite(s, id, turn).value).jobs[id].status;
                after == CancelRequested || after == Cancelled
    {
    }
  }
}
