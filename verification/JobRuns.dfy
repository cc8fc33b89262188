/** What holds on every run: any number of operations, in any order, by any
    number of workers, operators and recovery passes. */
module JobRuns {
  import opened Wrappers
  import opened JobStore
  import opened JobInvariants

  ghost function Exec(ops: seq<Op>): Store {
    if ops == [] then EMPTY else Apply(Exec(ops[..|ops| - 1]), ops[|ops| - 1])
  }

  predicate AllWellFormed(ops: seq<Op>) {
    forall op :: op in ops ==> WellFormed(op)
  }

  lemma {:induction false} ReachableInv(ops: seq<Op>)
    requires AllWellFormed(ops)
    ensures Inv(Exec(ops))
  {
    if ops != [] {
      var pre, op := ops[..|ops| - 1], ops[|ops| - 1];
      assert op in ops;
      ReachableInv(pre);
      StepInv(Exec(pre), op);
    }
  }

  lemma PrefixStep(ops: seq<Op>, i: nat)
    requires i < |ops|
    ensures Exec(ops[..i + 1]) == Apply(Exec(ops[..i]), ops[i])
  {
    assert ops[..i + 1][..i] == ops[..i];
  }

  lemma PrefixInv(ops: seq<Op>, n: nat)
    requires AllWellFormed(ops) && n <= |ops|
    ensures Inv(Exec(ops[..n]))
  {
    ReachableInv(ops[..n]);
  }

  // ----- leases -----

  /** The statuses that take the lease away. */
  predicate Ended(job: Job) {
    Terminal(job.status) || job.status == Interrupted
  }

  lemma LeaseStep(s: Store, op: Op, id: JobId)
    requires Inv(s) && WellFormed(op) && id in s.jobs
    ensures id in Apply(s, op).jobs
    ensures var job, job' := s.jobs[id], Apply(s, op).jobs[id];
            if Claims(s, op) == Some(id) then job'.status == Running && job'.lease == Some(op.lease)
            else job'.lease == if Ended(job') then None else job.lease
  {
    assert RowOk(s.jobs[id], s.journal[id]);
  }

  lemma NewRowStep(s: Store, op: Op, id: JobId)
    requires id !in s.jobs && id in Apply(s, op).jobs
    ensures op.Submit? && Apply(s, op).jobs[id] == NewJob(op.request, op.now)
  {
  }

  /** The lease of the most recent claim of `id` in the run, unless the job has
      since been interrupted or made terminal. Read off the run, not the table. */
  ghost function Holder(ops: seq<Op>, id: JobId): Option<Lease> {
    if ops == [] then None
    else
      var pre, op := ops[..|ops| - 1], ops[|ops| - 1];
      if Claims(Exec(pre), op) == Some(id) then Some(op.lease)
      else if id in Exec(ops).jobs && Ended(Exec(ops).jobs[id]) then None
      else Holder(pre, id)
  }

  /** The lease column always equals the lease the run's history implies. */
  lemma {:induction false} LeaseIsHolder(ops: seq<Op>, id: JobId)
    requires AllWellFormed(ops)
    ensures id in Exec(ops).jobs ==> Exec(ops).jobs[id].lease == Holder(ops, id)
    ensures id !in Exec(ops).jobs ==> Holder(ops, id) == None
  {
    if ops != [] {
      var pre, op := ops[..|ops| - 1], ops[|ops| - 1];
      assert op in ops;
      LeaseIsHolder(pre, id);
      ReachableInv(pre);
      if id in Exec(pre).jobs {
        LeaseStep(Exec(pre), op, id);
      } else if id in Exec(ops).jobs {
        NewRowStep(Exec(pre), op, id);
      }
    }
  }

  /** Running jobs hold exactly the latest claim's lease; queued, interrupted and
      terminal jobs hold none. */
  lemma LeaseByStatus(ops: seq<Op>, id: JobId)
    requires AllWellFormed(ops) && id in Exec(ops).jobs
    ensures var job := Exec(ops).jobs[id];
            && job.lease == Holder(ops, id)
            && (job.status == Running ==> Holder(ops, id).Some?)
            && (job.status == Queued || Ended(job) ==> Holder(ops, id) == None)
  {
    LeaseIsHolder(ops, id);
    ReachableInv(ops);
    assert RowOk(Exec(ops).jobs[id], Exec(ops).journal[id]);
  }

  /** Every job under cancellation still has the worker it waits for. */
  ghost predicate CancelsHeld(s: Store) {
    forall id :: id in s.jobs && s.jobs[id].status == CancelRequested ==> s.jobs[id].lease.Some?
  }

  /** `request_cancel` reads a status and writes later. That, and nothing else,
      can put a job under cancellation that no worker holds, and it does so
      exactly when the status read was that of a running job and the lease has
      gone since. */
  lemma CancelWriteGap(s: Store, op: Op)
    requires Inv(s) && CancelsHeld(s) && WellFormed(op)
    ensures CancelsHeld(Apply(s, op)) <==>
            !(op.CancelWrite? && CancelTarget(op.seen) == CancelRequested
              && op.id in s.jobs && s.jobs[op.id].lease == None)
  {
    var s' := Apply(s, op);
    if op.CancelWrite? && CancelTarget(op.seen) == CancelRequested && op.id in s.jobs && s.jobs[op.id].lease == None {
      assert s'.jobs[op.id].status == CancelRequested && s'.jobs[op.id].lease == None;
    } else {
      forall id | id in s'.jobs && s'.jobs[id].status == CancelRequested ensures s'.jobs[id].lease.Some? {
        if id in s.jobs {
          assert RowOk(s.jobs[id], s.journal[id]);
          CancelsStep(s, op, id);
        } else {
          NewRowStep(s, op, id);
        }
      }
    }
  }

  lemma CancelsStep(s: Store, op: Op, id: JobId)
    requires Inv(s) && CancelsHeld(s) && WellFormed(op) && id in s.jobs && id in Apply(s, op).jobs
    requires !(op.CancelWrite? && op.id == id && CancelTarget(op.seen) == CancelRequested && s.jobs[id].lease == None)
    ensures Apply(s, op).jobs[id].status == CancelRequested ==> Apply(s, op).jobs[id].lease.Some?
  {
    hide Pick;
    assert RowOk(s.jobs[id], s.journal[id]);
  }

  /** When reading and writing a cancellation are one step, jobs under
      cancellation hold exactly the latest claim's lease on every run. */
  lemma {:induction false} CancelRequestedHeld(ops: seq<Op>)
    requires AllWellFormed(ops) && forall op :: op in ops ==> !op.CancelWrite?
    ensures CancelsHeld(Exec(ops))
  {
    if ops != [] {
      var pre, op := ops[..|ops| - 1], ops[|ops| - 1];
      assert op in ops;
      CancelRequestedHeld(pre);
      ReachableInv(pre);
      CancelWriteGap(Exec(pre), op);
    }
  }

  // ----- fencing -----

  predicate IsClaim(op: Op) {
    op.ClaimNext? || op.Claim?
  }

  /** Every claim drew its own token. */
  predicate FreshTokens(ops: seq<Op>) {
    forall i, k :: 0 <= i < k < |ops| && IsClaim(ops[i]) && IsClaim(ops[k]) ==>
                     ops[i].lease.token != ops[k].lease.token
  }

  /** Step `i` neither claims `id` nor leaves it interrupted or terminal. */
  ghost predicate LeavesAlone(ops: seq<Op>, i: nat, id: JobId)
    requires i < |ops|
  {
    && Claims(Exec(ops[..i]), ops[i]) != Some(id)
    && !(id in Exec(ops[..i + 1]).jobs && Ended(Exec(ops[..i + 1]).jobs[id]))
  }

  /** Step `k` claimed `id` and nothing up to step `n` took the lease away. */
  ghost predicate LatestClaim(ops: seq<Op>, k: nat, n: nat, id: JobId)
    requires k < n <= |ops|
  {
    && Claims(Exec(ops[..k]), ops[k]) == Some(id)
    && forall i :: k < i < n ==> LeavesAlone(ops, i, id)
  }

  lemma {:induction false} LatestClaimHolds(ops: seq<Op>, k: nat, n: nat, id: JobId)
    requires k < n <= |ops| && LatestClaim(ops, k, n, id)
    ensures Holder(ops[..n], id) == Some(ops[k].lease)
    decreases n
  {
    assert ops[..n][..n - 1] == ops[..n - 1];
    if k + 1 < n {
      LatestClaimHolds(ops, k, n - 1, id);
      assert LeavesAlone(ops, n - 1, id);
    }
  }

  lemma {:induction false} HolderHasClaim(ops: seq<Op>, n: nat, id: JobId) returns (k: nat)
    requires n <= |ops| && Holder(ops[..n], id).Some?
    ensures k < n && IsClaim(ops[k]) && LatestClaim(ops, k, n, id)
    ensures Holder(ops[..n], id) == Some(ops[k].lease)
    decreases n
  {
    assert ops[..n][..n - 1] == ops[..n - 1];
    if Claims(Exec(ops[..n - 1]), ops[n - 1]) == Some(id) {
      k := n - 1;
    } else {
      k := HolderHasClaim(ops, n - 1, id);
      assert LeavesAlone(ops, n - 1, id);
    }
  }

  /** Fencing. After the claim at step `k` drew its token, a guarded status write
      carrying that token lands on job `id` at time `n` exactly when it names the
      claiming worker, that claim is the job's most recent one, and the job has
      since been neither interrupted nor made terminal. */
  lemma Fencing(ops: seq<Op>, k: nat, n: nat, id: JobId, lease: Lease)
    requires AllWellFormed(ops) && FreshTokens(ops)
    requires k < n <= |ops| && IsClaim(ops[k]) && lease.token == ops[k].lease.token
    ensures WriteLands(Exec(ops[..n]), id, Some(lease)) <==>
            lease == ops[k].lease && LatestClaim(ops, k, n, id)
  {
    LeaseIsHolder(ops[..n], id);
    if LatestClaim(ops, k, n, id) {
      LatestClaimHolds(ops, k, n, id);
      ClaimedStays(ops, k, n, id);
    }
    if WriteLands(Exec(ops[..n]), id, Some(lease)) {
      var c := HolderHasClaim(ops, n, id);
      assert c == k;
    }
  }

  /** A heartbeat with the token additionally needs the job to be running. */
  lemma HeartbeatFencing(ops: seq<Op>, k: nat, n: nat, id: JobId, lease: Lease)
    requires AllWellFormed(ops) && FreshTokens(ops)
    requires k < n <= |ops| && IsClaim(ops[k]) && lease.token == ops[k].lease.token
    ensures HeartbeatLands(Exec(ops[..n]), id, lease.worker, Some(lease.token)) <==>
            && lease == ops[k].lease && LatestClaim(ops, k, n, id)
            && id in Exec(ops[..n]).jobs && Exec(ops[..n]).jobs[id].status == Running
  {
    Fencing(ops, k, n, id, lease);
  }

  lemma {:induction false} ClaimedStays(ops: seq<Op>, k: nat, n: nat, id: JobId)
    requires k < n <= |ops| && Claims(Exec(ops[..k]), ops[k]) == Some(id)
    ensures id in Exec(ops[..n]).jobs
    decreases n
  {
    PrefixStep(ops, n - 1);
    if k + 1 < n {
      ClaimedStays(ops, k, n - 1, id);
    }
  }

  // ----- cancellation and terminal rows -----

  /** A write without a lease test, late cancellations included, and its target. */
  function Overwrites(op: Op, id: JobId): Option<(Status, WriteData, Time)> {
    if op.Write? && op.guard == None && op.id == id then Some((op.target, op.data, op.now))
    else if op.CancelWrite? && op.id == id then
      Some((CancelTarget(op.seen), CancelData(CancelTarget(op.seen)), op.now))
    else None
  }

  predicate Replays(s: Store, op: Op, id: JobId) {
    op.RequeueFailed? && op.id == id && Requeues(s, id, op.tenant, op.principal)
  }

  /** A terminal row is touched by exactly three things: a replay of an exhausted
      FAILED job, the late write of a cancellation, and a write without a lease.
      It changes its status exactly when a replay lands or such a write names
      another status. */
  lemma TerminalFrozen(s: Store, op: Op, id: JobId)
    requires Inv(s) && WellFormed(op) && id in s.jobs && Terminal(s.jobs[id].status)
    ensures id in Apply(s, op).jobs
    ensures Apply(s, op).jobs[id] ==
            if Replays(s, op, id) then RequeuedJob(s.jobs[id], op.reset)
            else match Overwrites(op, id)
              case Some((target, data, now)) => Written(s.jobs[id], target, data, now)
              case None => s.jobs[id]
    ensures Apply(s, op).jobs[id].status != s.jobs[id].status <==>
            Replays(s, op, id) || (Overwrites(op, id).Some? && Overwrites(op, id).value.0 != s.jobs[id].status)
  {
    hide Pick;
    assert RowOk(s.jobs[id], s.journal[id]);
  }

  /** Terminal safety of a whole run: a row keeps its terminal status from step
      `n` to step `m` if none of the three lands on it with another status. */
  lemma {:induction false} TerminalStays(ops: seq<Op>, n: nat, m: nat, id: JobId)
    requires AllWellFormed(ops) && n <= m <= |ops|
    requires id in Exec(ops[..n]).jobs && Terminal(Exec(ops[..n]).jobs[id].status)
    requires forall i :: n <= i < m ==>
               !Replays(Exec(ops[..i]), ops[i], id)
               && (Overwrites(ops[i], id).Some? ==> Overwrites(ops[i], id).value.0 == Exec(ops[..n]).jobs[id].status)
    ensures id in Exec(ops[..m]).jobs && Exec(ops[..m]).jobs[id].status == Exec(ops[..n]).jobs[id].status
    decreases m
  {
    hide Apply, Inv, Replays, Overwrites;
    if n < m {
      TerminalStays(ops, n, m - 1, id);
      PrefixStep(ops, m - 1);
      ReachableInv(ops[..m - 1]);
      assert ops[m - 1] in ops;
      TerminalFrozen(Exec(ops[..m - 1]), ops[m - 1], id);
    }
  }

  /** What a client checks before its final write. With a cancellation a worker
      compares the worker and the live statuses, otherwise it asks `_still_owned`;
      a client without a lease asks `cancellation_requested` unless it writes
      CANCELLED. */
  predicate CheckPasses(s: Store, op: Op) {
    op.Write? ==>
      if op.guard == None then
        op.target == Cancelled || (op.id in s.jobs ==> s.jobs[op.id].status !in {CancelRequested, Cancelled})
      else
        && op.id in s.jobs
        && var job := s.jobs[op.id];
        if op.target == Cancelled then
          Live(job.status) && job.lease.Some? && job.lease.value.worker == op.guard.value.worker
        else
          job.status == Running && job.lease == op.guard
  }

  /** A cancellation request leads anywhere but to CANCELLED in exactly one way:
      another status is written, without a lease or with the one still valid, by
      a client whose check came before the request. */
  lemma CancelGap(s: Store, op: Op, id: JobId)
    requires Inv(s) && WellFormed(op) && id in s.jobs && s.jobs[id].status == CancelRequested
    ensures id in Apply(s, op).jobs
    ensures (Apply(s, op).jobs[id].status == CancelRequested || Apply(s, op).jobs[id].status == Cancelled) <==>
            !(op.Write? && op.id == id && op.target != Cancelled && WriteLands(s, id, op.guard))
  {
  }

  ghost predicate AllChecked(ops: seq<Op>) {
    forall i :: 0 <= i < |ops| ==> CheckPasses(Exec(ops[..i]), ops[i])
  }

  /** On runs where each closing write is one step with its check, a job whose
      cancellation was requested is CANCEL_REQUESTED or CANCELLED ever after. */
  lemma {:induction false} CancelIsFinal(ops: seq<Op>, n: nat, m: nat, id: JobId)
    requires AllWellFormed(ops) && AllChecked(ops) && n <= m <= |ops|
    requires id in Exec(ops[..n]).jobs && Exec(ops[..n]).jobs[id].status == CancelRequested
    ensures id in Exec(ops[..m]).jobs
    ensures var st := Exec(ops[..m]).jobs[id].status; st == CancelRequested || st == Cancelled
    decreases m
  {
    if n < m {
      CancelIsFinal(ops, n, m - 1, id);
      PrefixStep(ops, m - 1);
      var s, op := Exec(ops[..m - 1]), ops[m - 1];
      ReachableInv(ops[..m - 1]);
      assert op in ops && CheckPasses(s, op);
      hide Apply, Inv;
      if s.jobs[id].status == CancelRequested {
        CancelGap(s, op, id);
      } else {
        TerminalFrozen(s, op, id);
      }
    }
  }

  const SAMPLE: Request := Request("parse", "default", Scope("local", "local"), 1, 3, "k")
  const SAMPLE_LEASE: Lease := Lease("w", 7)

  /** A submitted and claimed job, the start of the two races below. */
  lemma ClaimedSample() returns (ops: seq<Op>)
    ensures ops == [Submit(0, SAMPLE, 1), Claim(0, SAMPLE_LEASE, 2)]
    ensures Exec(ops).jobs == map[0 := ClaimedJob(NewJob(SAMPLE, 1), SAMPLE_LEASE, 2, false)]
  {
    ops := [Submit(0, SAMPLE, 1), Claim(0, SAMPLE_LEASE, 2)];
    PrefixStep(ops, 0);
    PrefixStep(ops, 1);
    assert ops[..0] == [] && ops[..2] == ops;
    assert Inserts(EMPTY, 0, SAMPLE);
    var s := Exec(ops[..1]);
    assert s == Apply(EMPTY, Submit(0, SAMPLE, 1));
    assert s.jobs == map[0 := NewJob(SAMPLE, 1)];
    assert Claims(s, ops[1]) == Some(0);
  }

  /** A run in which the check is not one step with the write: the job is
      cancelled in between and still ends SUCCEEDED. */
  lemma CancelCanBeLost() returns (ops: seq<Op>)
    ensures AllWellFormed(ops) && FreshTokens(ops) && |ops| == 4
    ensures 0 in Exec(ops[..3]).jobs && Exec(ops[..3]).jobs[0].status == CancelRequested
    ensures 0 in Exec(ops).jobs && Exec(ops).jobs[0].status == Succeeded
  {
    var start := ClaimedSample();
    var third := start + [RequestCancel(0, 3)];
    assert third[..2] == start;
    ops := third + [Write(0, Succeeded, NO_DATA, Some(SAMPLE_LEASE), 4)];
    assert ops[..3] == third;
    assert Exec(third).jobs[0].lease == Some(SAMPLE_LEASE);
  }

  /** A job cancelled while it runs can finish first; the late write then takes
      the SUCCEEDED row back to CANCEL_REQUESTED, where no worker holds it. */
  lemma CancelCanResurrect() returns (ops: seq<Op>)
    ensures AllWellFormed(ops) && FreshTokens(ops) && |ops| == 4 && ops[3] == CancelWrite(0, Running, 9)
    ensures 0 in Exec(ops[..2]).jobs && Exec(ops[..2]).jobs[0].status == Running
    ensures 0 in Exec(ops[..3]).jobs && Exec(ops[..3]).jobs[0].status == Succeeded
    ensures 0 in Exec(ops).jobs && Exec(ops).jobs[0].status == CancelRequested && Exec(ops).jobs[0].lease == None
  {
    var start := ClaimedSample();
    var third := start + [Write(0, Succeeded, NO_DATA, Some(SAMPLE_LEASE), 3)];
    assert third[..2] == start;
    ops := third + [CancelWrite(0, Running, 9)];
    assert ops[..3] == third && ops[..2] == start;
    PrefixStep(ops, 2);
    PrefixStep(ops, 3);
    assert ops[..4] == ops;
  }

  /** A job read while queued can be claimed and finish before the late write,
      which then turns the SUCCEEDED row into a CANCELLED one. */
  lemma CancelCanErase() returns (ops: seq<Op>)
    ensures AllWellFormed(ops) && FreshTokens(ops) && |ops| == 4 && ops[3] == CancelWrite(0, Queued, 9)
    ensures 0 in Exec(ops[..1]).jobs && Exec(ops[..1]).jobs[0].status == Queued
    ensures 0 in Exec(ops[..3]).jobs && Exec(ops[..3]).jobs[0].status == Succeeded
    ensures 0 in Exec(ops).jobs && Exec(ops).jobs[0].status == Cancelled
  {
    var start := ClaimedSample();
    var third := start + [Write(0, Succeeded, NO_DATA, Some(SAMPLE_LEASE), 3)];
    ops := third + [CancelWrite(0, Queued, 9)];
    assert ops[..3] == third && ops[..2] == start && third[..2] == start;
    assert ops[..1] == [Submit(0, SAMPLE, 1)] && ops[..0] == [];
    assert Inserts(EMPTY, 0, SAMPLE);
    PrefixStep(ops, 0);
    PrefixStep(ops, 2);
    PrefixStep(ops, 3);
    assert ops[..4] == ops;
  }

  // ----- retry accounting -----

  /** The attempt counter is the number of STARTED lines since the last resetting
      replay, within 0..max_attempts; over the whole journal there are at most
      max_attempts starts per granted budget. */
  lemma RetryAccounting(ops: seq<Op>, id: JobId)
    requires AllWellFormed(ops) && id in Exec(ops).jobs
    ensures id in Exec(ops).journal
    ensures var job, h := Exec(ops).jobs[id], Exec(ops).journal[id];
            && job.attempt == StartedSinceReset(h)
            && 0 <= job.attempt <= job.maxAttempts
            && StartedCount(h) == job.maxAttempts * ResetCount(h) + job.attempt
            && StartedCount(h) <= job.maxAttempts * (1 + ResetCount(h))
            && (job.finishedAt.Some? <==> Terminal(job.status))
  {
    ReachableInv(ops);
    var job, h := Exec(ops).jobs[id], Exec(ops).journal[id];
    assert RowOk(job, h);
    BudgetsIsProduct(job.maxAttempts, ResetCount(h));
    BudgetsIsProduct(job.maxAttempts, ResetCount(h) + 1);
  }

  ghost function ClaimsOf(ops: seq<Op>, id: JobId): nat {
    if ops == [] then 0
    else
      var pre, op := ops[..|ops| - 1], ops[|ops| - 1];
      ClaimsOf(pre, id) + if Claims(Exec(pre), op) == Some(id) then 1 else 0
  }

  /** The journal only grows, by at most one line a step. */
  lemma JournalGrows(s: Store, op: Op, id: JobId)
    requires Inv(s) && WellFormed(op)
    ensures History(s, id) <= History(Apply(s, op), id)
    ensures |History(Apply(s, op), id)| <= |History(s, id)| + 1
  {
  }

  /** A claim adds a STARTED line and nothing else does. */
  lemma StartedEntry(s: Store, op: Op, id: JobId)
    requires Inv(s) && WellFormed(op)
    ensures var h, h' := History(s, id), History(Apply(s, op), id);
            if |h'| > |h| then h'[|h|].Started? <==> Claims(s, op) == Some(id) else Claims(s, op) != Some(id)
  {
    hide Pick, Inv;
  }

  lemma StartedStep(s: Store, op: Op, id: JobId)
    requires Inv(s) && WellFormed(op)
    ensures StartedCount(History(Apply(s, op), id)) ==
            StartedCount(History(s, id)) + if Claims(s, op) == Some(id) then 1 else 0
  {
    var h, h' := History(s, id), History(Apply(s, op), id);
    JournalGrows(s, op, id);
    StartedEntry(s, op, id);
    hide Apply, Inv, Claims;
    if |h'| == |h| + 1 {
      assert h' == h + [h'[|h|]];
      CountsAppend(h, h'[|h|]);
    } else {
      assert h' == h;
    }
  }

  /** Every claim of the run, and nothing else, left a STARTED line. */
  lemma {:induction false} ClaimsAreJournaled(ops: seq<Op>, id: JobId)
    requires AllWellFormed(ops)
    ensures ClaimsOf(ops, id) == StartedCount(History(Exec(ops), id))
  {
    if ops != [] {
      var pre, op := ops[..|ops| - 1], ops[|ops| - 1];
      assert op in ops;
      ClaimsAreJournaled(pre, id);
      ReachableInv(pre);
      StartedStep(Exec(pre), op, id);
    }
  }

  // ----- replay without a reset -----

  /** No attempts left and no lease. */
  predicate Stranded(job: Job) {
    job.attempt == job.maxAttempts && job.lease == None
  }

  lemma StrandedStep(s: Store, op: Op, id: JobId)
    requires Inv(s) && WellFormed(op) && id in s.jobs && Stranded(s.jobs[id])
    ensures Claims(s, op) != Some(id)
    ensures id in Apply(s, op).jobs
    ensures !(Replays(s, op, id) && op.reset) ==> Stranded(Apply(s, op).jobs[id])
  {
    hide Pick;
    assert RowOk(s.jobs[id], s.journal[id]);
  }

  /** A replayed dead letter can be claimed at once exactly when its attempts were
      reset; otherwise it is stranded. */
  lemma ReplayClaimableIff(s: Store, op: Op, id: JobId, lease: Lease, now: Time)
    requires Inv(s) && Replays(s, op, id)
    ensures id in Apply(s, op).jobs && Apply(s, op).jobs[id].status == RetryPending
    ensures Claims(Apply(s, op), Claim(id, lease, now)) == Some(id) <==> op.reset
    ensures Stranded(Apply(s, op).jobs[id]) <==> !op.reset
  {
    assert RowOk(s.jobs[id], s.journal[id]);
  }

  /** From a replay at step `n` without a reset the job is never claimed again
      until a replay with a reset lands on it. */
  lemma {:induction false} StrandedUntilReset(ops: seq<Op>, n: nat, m: nat, id: JobId)
    requires AllWellFormed(ops) && n < m <= |ops|
    requires Replays(Exec(ops[..n]), ops[n], id) && !ops[n].reset
    requires forall i :: n < i < m ==> !(Replays(Exec(ops[..i]), ops[i], id) && ops[i].reset)
    ensures id in Exec(ops[..m]).jobs && Stranded(Exec(ops[..m]).jobs[id])
    ensures m < |ops| ==> Claims(Exec(ops[..m]), ops[m]) != Some(id)
    decreases m
  {
    hide *;
    PrefixStep(ops, m - 1);
    if n + 1 == m {
      PrefixInv(ops, n);
      ReplayClaimableIff(Exec(ops[..n]), ops[n], id, SAMPLE_LEASE, 0);
    } else {
      StrandedUntilReset(ops, n, m - 1, id);
      StrandedAt(ops, m - 1, id);
    }
    if m < |ops| { StrandedAt(ops, m, id); }
  }

  lemma StrandedAt(ops: seq<Op>, m: nat, id: JobId)
    requires AllWellFormed(ops) && m < |ops|
    requires id in Exec(ops[..m]).jobs && Stranded(Exec(ops[..m]).jobs[id])
    ensures Claims(Exec(ops[..m]), ops[m]) != Some(id)
    ensures !(Replays(Exec(ops[..m]), ops[m], id) && ops[m].reset) ==>
              var next := Exec(ops[..m + 1]); id in next.jobs && Stranded(next.jobs[id])
  {
    hide Apply, Exec, Inv, Stranded, Replays, Claims;
    PrefixStep(ops, m);
    PrefixInv(ops, m);
    assert ops[m] in ops;
    StrandedStep(Exec(ops[..m]), ops[m], id);
  }

  predicate Waits(job: Job) {
    Stranded(job) && (job.status == RetryPending || job.status == CancelRequested || job.status == Cancelled)
  }

  lemma WaitsStep(s: Store, op: Op, id: JobId)
    requires Inv(s) && WellFormed(op) && id in s.jobs && Waits(s.jobs[id])
    requires !(op.Write? && op.guard == None)
    ensures Claims(s, op) != Some(id)
    ensures id in Apply(s, op).jobs && Waits(Apply(s, op).jobs[id])
  {
    hide Pick;
    assert RowOk(s.jobs[id], s.journal[id]);
  }

  /** When no client writes without a lease, that is forever: on any continuation
      the job is never claimed again and can only be cancelled. */
  lemma {:induction false} ReplayWithoutResetStrands(ops: seq<Op>, n: nat, m: nat, id: JobId)
    requires AllWellFormed(ops) && n < m <= |ops|
    requires forall i :: n < i < |ops| ==> !(ops[i].Write? && ops[i].guard == None)
    requires Replays(Exec(ops[..n]), ops[n], id) && !ops[n].reset
    ensures id in Exec(ops[..m]).jobs && Waits(Exec(ops[..m]).jobs[id])
    ensures m < |ops| ==> Claims(Exec(ops[..m]), ops[m]) != Some(id)
    decreases m
  {
    hide *;
    PrefixStep(ops, m - 1);
    if n + 1 == m {
      PrefixInv(ops, n);
      ReplayClaimableIff(Exec(ops[..n]), ops[n], id, SAMPLE_LEASE, 0);
      ReplayedWaits(Exec(ops[..m]).jobs[id]);
    } else {
      ReplayWithoutResetStrands(ops, n, m - 1, id);
      WaitsAt(ops, m - 1, id);
    }
    if m < |ops| { WaitsAt(ops, m, id); }
  }

  lemma ReplayedWaits(job: Job)
    requires Stranded(job) && job.status == RetryPending
    ensures Waits(job)
  {
  }

  lemma WaitsAt(ops: seq<Op>, m: nat, id: JobId)
    requires AllWellFormed(ops) && m < |ops| && !(ops[m].Write? && ops[m].guard == None)
    requires id in Exec(ops[..m]).jobs && Waits(Exec(ops[..m]).jobs[id])
    ensures Claims(Exec(ops[..m]), ops[m]) != Some(id)
    ensures id in Exec(ops[..m + 1]).jobs && Waits(Exec(ops[..m + 1]).jobs[id])
  {
    hide Apply, Exec, Inv, Waits, Claims;
    PrefixStep(ops, m);
    PrefixInv(ops, m);
    assert ops[m] in ops;
    WaitsStep(Exec(ops[..m]), ops[m], id);
  }

  // ----- idempotent submission -----

  ghost predicate KeysUnique(s: Store) {
    forall a, b :: a in s.jobs && b in s.jobs && s.jobs[a].idempotencyKey == s.jobs[b].idempotencyKey ==> a == b
  }

  lemma KeyStep(s: Store, op: Op, id: JobId)
    requires id in s.jobs
    ensures id in Apply(s, op).jobs
    ensures var job, job' := s.jobs[id], Apply(s, op).jobs[id];
            && job'.idempotencyKey == job.idempotencyKey && job'.scope == job.scope
            && job'.maxAttempts == job.maxAttempts && job'.createdAt == job.createdAt
  {
  }

  /** Submitting one key any number of times leaves one job. */
  lemma {:induction false} OneJobPerKey(ops: seq<Op>)
    ensures KeysUnique(Exec(ops))
  {
    if ops != [] {
      var pre, op := ops[..|ops| - 1], ops[|ops| - 1];
      OneJobPerKey(pre);
      var s, s' := Exec(pre), Exec(ops);
      forall a, b | a in s'.jobs && b in s'.jobs && s'.jobs[a].idempotencyKey == s'.jobs[b].idempotencyKey
        ensures a == b
      {
        if a in s.jobs { KeyStep(s, op, a); } else { NewRowStep(s, op, a); }
        if b in s.jobs { KeyStep(s, op, b); } else { NewRowStep(s, op, b); }
      }
    }
  }
}
