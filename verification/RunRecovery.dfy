// Recovery of runs whose worker has gone silent: which rows it takes, in the columns of the table, and that
// a worker that keeps reporting keeps its claim.
module RunRecovery {
  import opened Prelude
  import opened RunTypes
  import opened RunSteps
  import opened RunInvariant

  /** A live plaintext run that is running on this executor. */
  predicate RunsFor(r: Run, executor: Executor) {
    r.status == Running && r.mode == Plaintext && r.deletedAt == None && (executor == Hermes <==> "hermes:" <= r.model)
  }

  /** The latest of the three clocks that is set, in the order activity, start, update. */
  function LastSign(r: Run): Time {
    match r.lastActivity
    case Some(activity) => activity
    case None => match r.startedAt case Some(start) => start case None => r.updatedAt
  }

  /** Back in the queue at `now`, nobody's, with its attempts and its first start as they were. */
  predicate BackInQueue(r: Run, r': Run, now: Time) {
    && r'.status == Queued && r'.queuedAt == now && r'.attempts == r.attempts && r'.startedAt == r.startedAt
    && r'.claimedBy == None && r'.lease == None && r'.leaseExpires == None && r'.lastActivity == None
    && r'.progress == None && r'.finishedAt == r.finishedAt && r'.response == r.response
  }

  /** Ended in error at `now`, nobody's. */
  predicate GivenUp(r: Run, r': Run, now: Time) {
    && r'.status == Error && r'.finishedAt == Some(now) && r'.attempts == r.attempts
    && r'.claimedBy == None && r'.lease == None && r'.leaseExpires == None
    && r'.progress == None && r'.error.Some? && r'.response == r.response
  }

  /**
   * What one recovery makes of a row. A run that gave a sign at or after the limit is left alone, and so is
   * any row that is not a live plaintext run of the executor; a silent one is queued again while it has
   * attempts left, and ends in error when it has none.
   */
  predicate Recovered(r: Run, r': Run, executor: Executor, staleAfter: int, maxAttempts: nat, now: Time) {
    && (!RunsFor(r, executor) || LastSign(r) >= now - staleAfter ==> r' == r)
    && (RunsFor(r, executor) && LastSign(r) < now - staleAfter ==>
          if r.attempts < maxAttempts then BackInQueue(r, r', now) else GivenUp(r, r', now))
  }

  lemma RecoversTheSilent(s: Db, executor: Executor, staleAfter: int, maxAttempts: nat, now: Time, id: RunId)
    requires id in s.runs
    ensures Recovered(s.runs[id], Step(s, Recover(executor, staleAfter, maxAttempts), now).runs[id],
                      executor, staleAfter, maxAttempts, now)
  {
    hide Stale, RunsFor, LastSign, RecoveredRow, BackInQueue, GivenUp;
    StaleIsSilent(s.runs[id], executor, staleAfter, now);
    RecoveredColumns(s.runs[id], maxAttempts, now);
  }

  lemma StaleIsSilent(r: Run, executor: Executor, staleAfter: int, now: Time)
    ensures Stale(r, executor, staleAfter, now) <==> RunsFor(r, executor) && LastSign(r) < now - staleAfter
  {
  }

  lemma RecoveredColumns(r: Run, maxAttempts: nat, now: Time)
    ensures if r.attempts < maxAttempts then BackInQueue(r, RecoveredRow(r, maxAttempts, now), now)
            else GivenUp(r, RecoveredRow(r, maxAttempts, now), now)
  {
  }

  /** In a reachable database the last sign of a running run is its activity. */
  lemma SignIsActivity(limits: Limits, s: Db, executor: Executor, id: RunId)
    requires Inv(limits, s) && id in s.runs && RunsFor(s.runs[id], executor)
    ensures s.runs[id].lastActivity == Some(LastSign(s.runs[id]))
  {
    assert RowInv(limits, s.issued, s.runs[id]);
  }

  // ---------------------------------------------------------------- a worker that keeps reporting

  /** A heartbeat or a progress report of the holder of `lease`. */
  predicate Reports(c: Call, id: RunId, runner: RunnerId, lease: LeaseId) {
    match c
    case Renew(run, worker, under) => run == id && worker == runner && under == lease
    case Progress(run, worker, under, _) => run == id && worker == runner && under == lease
    case _ => false
  }

  /** The holder itself ends the run, its user cancels it, or it may be cancelled by a deadline. */
  predicate MayEnd(s: Db, c: Call, id: RunId) {
    match c
    case Finish(run, _, _, _) => run == id
    case Cancel(run, _, _, _) => run == id
    case Expire(_, _, _) => id in s.runs && s.runs[id].user in s.csapiUsers
    case _ => false
  }

  /** No recovery in the trace comes more than its limit after a report, the latest so far being at `last`. */
  predicate KeepsReporting(s: Db, trace: seq<Timed>, id: RunId, runner: RunnerId, lease: LeaseId, last: Time)
    decreases |trace|
  {
    trace == []
    || var c, now := trace[0].call, trace[0].now;
       && !MayEnd(s, c, id)
       && (c.Recover? ==> now - last <= c.staleAfter)
       && KeepsReporting(Step(s, c, now), trace[1..], id, runner, lease,
                         if Reports(c, id, runner, lease) then now else last)
  }

  /** `runner` works on the live plaintext run under `lease` and has given a sign at `last` or later. */
  predicate Working(r: Run, runner: RunnerId, lease: LeaseId, last: Time) {
    && r.status == Running && r.mode == Plaintext && r.deletedAt == None
    && r.claimedBy == Some(runner) && r.lease == Some(lease)
    && r.lastActivity.Some? && r.lastActivity.value >= last
  }

  lemma WorksOnTarget(s: Db, c: Call, now: Time, id: RunId, runner: RunnerId, lease: LeaseId, last: Time)
    requires id in s.runs && Working(s.runs[id], runner, lease, last) && last <= now
    requires Target(c) == Some(id) && !MayEnd(s, c, id)
    ensures Working(AfterTarget(s, c, now, s.runs[id]), runner, lease, last)
    ensures Reports(c, id, runner, lease) ==> Working(AfterTarget(s, c, now, s.runs[id]), runner, lease, now)
  {
  }

  lemma WorksOnSweeping(s: Db, c: Call, now: Time, id: RunId, runner: RunnerId, lease: LeaseId, last: Time)
    requires id in s.runs && Working(s.runs[id], runner, lease, last) && !MayEnd(s, c, id) && Target(c).None?
    requires Claims(c, id) ==> s.runs[id].status.Queued?
    requires c.Recover? ==> now - last <= c.staleAfter
    ensures Working(AfterSweeping(s, c, now, id, s.runs[id]), runner, lease, last)
  {
  }

  lemma WorksOn(limits: Limits, s: Db, c: Call, now: Time, id: RunId, runner: RunnerId, lease: LeaseId, last: Time)
    requires limits.maxAttempts > 0 && Enabled(limits, s, c, now) && last <= s.clock
    requires id in s.runs && Working(s.runs[id], runner, lease, last) && !MayEnd(s, c, id)
    requires c.Recover? ==> now - last <= c.staleAfter
    ensures Working(Step(s, c, now).runs[id], runner, lease, if Reports(c, id, runner, lease) then now else last)
  {
    hide AfterTarget, AfterSweeping, Working, Enabled, RowEnabled;
    EnabledRow(limits, s, c, now, id);
    ClaimsQueued(limits, s, c, now, id);
    if id in Inserted(s, c, now) { InsertedRow(limits, s, c, now, id); }
    if Target(c).None? {
      WorksOnSweeping(s, c, now, id, runner, lease, last);
    } else if Target(c) == Some(id) {
      WorksOnTarget(s, c, now, id, runner, lease, last);
    }
  }

  lemma ClaimsQueued(limits: Limits, s: Db, c: Call, now: Time, id: RunId)
    requires id in s.runs && RowEnabled(limits, s.issued, c, id, s.runs[id])
    ensures Claims(c, id) ==> s.runs[id].status.Queued?
    ensures Enabled(limits, s, c, now) ==> s.clock <= now
  {
  }

  /**
   * A worker that renews or reports at least every `staleAfter` keeps its claim through any number of
   * recoveries and whatever else happens, until it finishes, its user cancels or a deadline passes.
   */
  lemma {:induction false} ReportingKeepsTheClaim(limits: Limits, s: Db, trace: seq<Timed>, id: RunId,
                                                  runner: RunnerId, lease: LeaseId, last: Time)
    requires limits.maxAttempts > 0 && Legal(limits, s, trace) && last <= s.clock
    requires id in s.runs && Working(s.runs[id], runner, lease, last)
    requires KeepsReporting(s, trace, id, runner, lease, last)
    ensures HoldsLease(Exec(s, trace).runs[id], runner, lease)
    ensures Exec(s, trace).runs[id].attempts == s.runs[id].attempts
    decreases |trace|
  {
    hide Step, Enabled, Inserted;
    if trace != [] {
      var c, now := trace[0].call, trace[0].now;
      WorksOn(limits, s, c, now, id, runner, lease, last);
      SameAttempt(limits, s, c, now, id);
      ReportingKeepsTheClaim(limits, Step(s, c, now), trace[1..], id, runner, lease,
                             if Reports(c, id, runner, lease) then now else last);
    }
  }

  /** A claim is such a sign: from it on the worker only has to keep reporting. */
  lemma ClaimIsASign(limits: Limits, s: Db, c: Call, now: Time)
    requires c.Claim? && c.chosen.Some? && limits.maxAttempts > 0 && Enabled(limits, s, c, now)
    ensures Working(Step(s, c, now).runs[c.chosen.value], c.runner, c.lease, now)
  {
  }

  lemma SameAttempt(limits: Limits, s: Db, c: Call, now: Time, id: RunId)
    requires limits.maxAttempts > 0 && Enabled(limits, s, c, now) && id in s.runs && s.runs[id].status.Running?
    ensures Step(s, c, now).clock == now && s.clock <= now
    ensures Step(s, c, now).runs[id].status.Running? ==> Step(s, c, now).runs[id].attempts == s.runs[id].attempts
  {
    hide AfterTarget, AfterSweeping;
    if id in Inserted(s, c, now) { InsertedRow(limits, s, c, now, id); }
    EnabledRow(limits, s, c, now, id);
    AttemptsOnTarget(s, c, now, id, s.runs[id]);
    AttemptsOnSweeping(s, c, now, id, s.runs[id]);
  }

  lemma AttemptsOnTarget(s: Db, c: Call, now: Time, id: RunId, r: Run)
    ensures AfterTarget(s, c, now, r).attempts == r.attempts
  {
  }

  lemma AttemptsOnSweeping(s: Db, c: Call, now: Time, id: RunId, r: Run)
    requires Claims(c, id) ==> r.status.Queued?
    ensures AfterSweeping(s, c, now, id, r).attempts == r.attempts || Claims(c, id)
  {
  }
}
