// A lease id is a capability for one claim of one run. Once that claim has ended the id is dead for
// good: nothing sent under it changes anything, and the one result accepted under it stays.
module LeaseFencing {
  import opened Prelude
  import opened RunTypes
  import opened RunSteps
  import opened RunInvariant

  function LeaseOf(c: Call): LeaseId
    requires UnderLease(c)
  {
    match c
    case Renew(_, _, lease) => lease
    case Progress(_, _, lease, _) => lease
    case Finish(_, _, lease, _) => lease
    case RenewE2ee(_, _, _, lease, _) => lease
    case ProgressE2ee(_, lease, _, _) => lease
    case FinishE2ee(_, lease, _) => lease
    case RejectE2ee(_, _, _, lease) => lease
  }

  function RunnerOf(c: Call): RunnerId
    requires UnderLease(c)
  {
    match c
    case Renew(_, runner, _) => runner
    case Progress(_, runner, _, _) => runner
    case Finish(_, runner, _, _) => runner
    case RenewE2ee(_, runner, _, _, _) => runner
    case ProgressE2ee(runner, _, _, _) => runner
    case FinishE2ee(runner, _, _) => runner
    case RejectE2ee(_, runner, _, _) => runner
  }

  /** Some run is being executed under `lease` right now. */
  ghost predicate LiveLease(s: Db, lease: LeaseId) {
    exists id | id in s.runs :: s.runs[id].status.Running? && s.runs[id].lease == Some(lease)
  }

  ghost predicate Dead(s: Db, lease: LeaseId) {
    lease in s.issued && !LiveLease(s, lease)
  }

  // ---------------------------------------------------------------- a call touches only its own claim

  lemma UnderLeaseTarget(s: Db, c: Call, now: Time, r: Run)
    requires UnderLease(c) && AfterTarget(s, c, now, r) != r
    ensures r.status.Running? && r.lease == Some(LeaseOf(c)) && r.claimedBy == Some(RunnerOf(c))
  {
  }

  lemma UnderLeaseRow(s: Db, c: Call, now: Time, id: RunId, r: Run)
    requires UnderLease(c) && After(s, c, now, id, r) != r
    ensures r.status.Running? && r.lease == Some(LeaseOf(c)) && r.claimedBy == Some(RunnerOf(c))
  {
    hide AfterTarget, AfterSweeping;
    UnderLeaseTarget(s, c, now, r);
  }

  lemma UnderLeaseRows(s: Db, c: Call, now: Time)
    requires UnderLease(c)
    ensures Step(s, c, now).runs.Keys == s.runs.Keys
    ensures forall id | id in s.runs :: Step(s, c, now).runs[id] == After(s, c, now, id, s.runs[id])
  {
    hide After;
  }

  /** A finish, progress, renew or reject call changes at most the run its lease is the current claim of. */
  lemma TouchesOnlyItsClaim(limits: Limits, s: Db, c: Call, now: Time, id: RunId)
    requires Inv(limits, s) && UnderLease(c) && id in s.runs
    ensures Step(s, c, now).runs.Keys == s.runs.Keys
    ensures Step(s, c, now).runs[id] != s.runs[id] ==>
              && HoldsLease(s.runs[id], RunnerOf(c), LeaseOf(c))
              && forall j | j in s.runs && j != id :: Step(s, c, now).runs[j] == s.runs[j]
  {
    hide After, Step, RowInv;
    UnderLeaseRows(s, c, now);
    var s' := Step(s, c, now);
    if s'.runs[id] != s.runs[id] {
      UnderLeaseRow(s, c, now, id, s.runs[id]);
      forall j | j in s.runs && j != id ensures s'.runs[j] == s.runs[j] {
        assert Compatible(s.runs[id], s.runs[j]);
        if s'.runs[j] != s.runs[j] { UnderLeaseRow(s, c, now, j, s.runs[j]); }
      }
    }
  }

  lemma SameRows(a: map<RunId, Run>, b: map<RunId, Run>)
    requires a.Keys == b.Keys && forall id | id in a :: a[id] == b[id]
    ensures a == b
  {
  }

  lemma DeadCallRow(s: Db, c: Call, now: Time, id: RunId)
    requires UnderLease(c) && !LiveLease(s, LeaseOf(c)) && id in s.runs
    ensures After(s, c, now, id, s.runs[id]) == s.runs[id]
  {
    hide After;
    if After(s, c, now, id, s.runs[id]) != s.runs[id] { UnderLeaseRow(s, c, now, id, s.runs[id]); }
  }

  lemma DeadCallDoesNothing(s: Db, c: Call, now: Time)
    requires UnderLease(c) && !LiveLease(s, LeaseOf(c))
    ensures Step(s, c, now).runs == s.runs
  {
    hide After, Step, LiveLease, LeaseOf;
    UnderLeaseRows(s, c, now);
    var rows := Step(s, c, now).runs;
    forall id | id in s.runs ensures rows[id] == s.runs[id] {
      DeadCallRow(s, c, now, id);
    }
    SameRows(rows, s.runs);
  }

  // ---------------------------------------------------------------- how a lease dies, and that it stays dead

  /** A step that ends, requeues, cancels, expires or re-claims the run under `lease` leaves the lease dead. */
  lemma LosingTheClaimKills(limits: Limits, s: Db, c: Call, now: Time, id: RunId, lease: LeaseId)
    requires Inv(limits, s) && limits.maxAttempts > 0 && Enabled(limits, s, c, now)
    requires id in s.runs && HoldsLease(s.runs[id], s.runs[id].claimedBy.GetOr(""), lease)
    requires !(Step(s, c, now).runs[id].status.Running? && Step(s, c, now).runs[id].lease == Some(lease))
    ensures Dead(Step(s, c, now), lease)
  {
    hide After, Enabled;
    var s' := Step(s, c, now);
    assert RowInv(limits, s.issued, s.runs[id]);
    forall j | j in s'.runs ensures !(s'.runs[j].status.Running? && s'.runs[j].lease == Some(lease)) {
      if j in Inserted(s, c, now) {
        InsertedRow(limits, s, c, now, j);
      } else {
        LeaseOrigin(s, c, now, j);
        EnabledRow(limits, s, c, now, j);
        assert j != id ==> Compatible(s.runs[id], s.runs[j]);
      }
    }
  }

  lemma DeadStaysDead(limits: Limits, s: Db, c: Call, now: Time, lease: LeaseId)
    requires Inv(limits, s) && limits.maxAttempts > 0 && Enabled(limits, s, c, now) && Dead(s, lease)
    ensures Dead(Step(s, c, now), lease)
  {
    hide After, Enabled;
    var s' := Step(s, c, now);
    if j :| j in s'.runs && s'.runs[j].status.Running? && s'.runs[j].lease == Some(lease) {
      if j in Inserted(s, c, now) { InsertedRow(limits, s, c, now, j); }
      LeaseOrigin(s, c, now, j);
      assert RowInv(limits, s.issued, s.runs[j]);
      EnabledRow(limits, s, c, now, j);
      RunningOrigin(limits, s, c, now, j);
    }
  }

  lemma {:induction false} DeadOverTrace(limits: Limits, s: Db, trace: seq<Timed>, lease: LeaseId)
    requires Inv(limits, s) && limits.maxAttempts > 0 && Legal(limits, s, trace) && Dead(s, lease)
    ensures Dead(Exec(s, trace), lease)
    decreases |trace|
  {
    if trace != [] {
      InvKept(limits, s, trace[0].call, trace[0].now);
      DeadStaysDead(limits, s, trace[0].call, trace[0].now, lease);
      DeadOverTrace(limits, Step(s, trace[0].call, trace[0].now), trace[1..], lease);
    }
  }

  /** After any traffic whatsoever, a call under a lease that had died before it changes not a single run. */
  lemma FencedForever(limits: Limits, s: Db, between: seq<Timed>, lease: LeaseId, late: Call, now: Time)
    requires Inv(limits, s) && limits.maxAttempts > 0 && Dead(s, lease) && Legal(limits, s, between)
    requires UnderLease(late) && LeaseOf(late) == lease
    ensures Step(Exec(s, between), late, now).runs == Exec(s, between).runs
  {
    DeadOverTrace(limits, s, between, lease);
    DeadCallDoesNothing(Exec(s, between), late, now);
  }

  // ---------------------------------------------------------------- terminal rows

  /** The part of a terminal row that the user sees as the run's result. */
  datatype Verdict = Verdict(
    status: Status, response: Option<string>, error: Option<string>,
    inputTokens: Option<nat>, outputTokens: Option<nat>, result: Option<E2eeResult>,
    cancelReason: Option<CancelReason>, finishedAt: Option<Time>,
    claimedBy: Option<RunnerId>, lease: Option<LeaseId>)

  function VerdictOf(r: Run): Verdict {
    Verdict(r.status, r.response, r.error, r.inputTokens, r.outputTokens, r.result,
            r.cancelReason, r.finishedAt, r.claimedBy, r.lease)
  }

  predicate VerdictKept(r: Run, r': Run) {
    && r'.status == r.status && r'.result == r.result && r'.lease == r.lease && r'.claimedBy == r.claimedBy
    && (r'.mode == r.mode ==> VerdictOf(r') == VerdictOf(r))
  }

  lemma VerdictKeptTarget(s: Db, c: Call, now: Time, r: Run)
    requires Terminal(r.status)
    ensures VerdictKept(r, AfterTarget(s, c, now, r))
  {
  }

  lemma VerdictKeptSweeping(s: Db, c: Call, now: Time, id: RunId, r: Run)
    requires Terminal(r.status) && !Claims(c, id)
    ensures VerdictKept(r, AfterSweeping(s, c, now, id, r))
  {
  }

  lemma TerminalRowKept(limits: Limits, s: Db, c: Call, now: Time, id: RunId)
    requires Enabled(limits, s, c, now) && id in s.runs && Terminal(s.runs[id].status)
    ensures VerdictKept(s.runs[id], After(s, c, now, id, s.runs[id]))
  {
    hide AfterTarget, AfterSweeping, Enabled, VerdictKept;
    EnabledRow(limits, s, c, now, id);
    if Target(c).Some? {
      VerdictKeptTarget(s, c, now, s.runs[id]);
      VerdictKeptSame(s.runs[id]);
    } else {
      VerdictKeptSweeping(s, c, now, id, s.runs[id]);
    }
  }

  lemma VerdictKeptSame(r: Run)
    ensures VerdictKept(r, r)
  {
  }

  /** Terminal statuses are absorbing, and only scrubbing, which changes the mode, touches the verdict. */
  lemma {:induction false} TerminalForever(limits: Limits, s: Db, trace: seq<Timed>, id: RunId)
    requires Inv(limits, s) && limits.maxAttempts > 0 && Legal(limits, s, trace)
    requires id in s.runs && Terminal(s.runs[id].status)
    ensures id in Exec(s, trace).runs
    ensures var r, r' := s.runs[id], Exec(s, trace).runs[id];
            && r'.status == r.status && r'.result == r.result && r'.target == r.target
            && (r'.mode == r.mode || (r.mode.Plaintext? && r'.mode.Scrubbed?))
            && (r'.mode == r.mode ==> VerdictOf(r') == VerdictOf(r))
    decreases |trace|
  {
    hide After, Enabled;
    if trace != [] {
      var c, now := trace[0].call, trace[0].now;
      if id in Inserted(s, c, now) { InsertedRow(limits, s, c, now, id); }
      TerminalRowKept(limits, s, c, now, id);
      IdentityKept(s, c, now, id, s.runs[id]);
      InvKept(limits, s, c, now);
      TerminalForever(limits, Step(s, c, now), trace[1..], id);
    }
  }

  // ---------------------------------------------------------------- results and their replay

  /** What finishRun answers: the updated row, else the row this same attempt already finished. */
  function FinishReply(s: Db, c: Call, now: Time): Option<Run>
    requires c.Finish?
  {
    if c.run !in s.runs then None
    else
      var r := s.runs[c.run];
      if r.mode.Plaintext? && HoldsLease(r, c.runner, c.lease) then Some(FinishedRow(r, c.outcome, now))
      else if r.mode.Plaintext? && r.claimedBy == Some(c.runner) && r.lease == Some(c.lease)
              && Outcome(r.status, r.response, r.error, r.inputTokens, r.outputTokens) == c.outcome
      then Some(r)
      else None
  }

  /** What finishE2eeRun answers: the updated row, else any row carrying a result of that message id. */
  function FinishE2eeReply(s: Db, c: Call, now: Time): Option<Run>
    requires c.FinishE2ee?
  {
    if c.result.runId !in s.runs then None
    else
      var r := s.runs[c.result.runId];
      if r.conversation == c.result.conversation && HoldsE2eeLease(r, c.runner, c.lease)
      then Some(E2eeClosedRow(r, c.result.status, Some(c.result), now))
      else if r.target == Some(c.runner) && r.mode.E2ee? && r.result.Some?
              && r.result.value.messageId == c.result.messageId
      then Some(r)
      else None
  }

  /** The call is a result that this database accepts for run `id`. */
  predicate Accepts(s: Db, c: Call, id: RunId) {
    id in s.runs
    && if c.Finish? then c.run == id && s.runs[id].mode.Plaintext? && HoldsLease(s.runs[id], c.runner, c.lease)
       else c.FinishE2ee? && c.result.runId == id && s.runs[id].conversation == c.result.conversation
            && HoldsE2eeLease(s.runs[id], c.runner, c.lease)
  }

  lemma AcceptedRow(limits: Limits, s: Db, c: Call, now: Time, id: RunId)
    requires Inv(limits, s) && Enabled(limits, s, c, now) && Accepts(s, c, id)
    ensures Terminal(Step(s, c, now).runs[id].status)
    ensures Step(s, c, now).runs[id] ==
            if c.Finish? then FinishedRow(s.runs[id], c.outcome, now)
            else E2eeClosedRow(s.runs[id], c.result.status, Some(c.result), now)
  {
  }

  lemma NothingMoreAccepted(limits: Limits, s: Db, between: seq<Timed>, lease: LeaseId, second: Call, id: RunId,
                            other: RunId)
    requires Inv(limits, s) && limits.maxAttempts > 0 && Legal(limits, s, between)
    requires Dead(s, lease) && id in s.runs && Terminal(s.runs[id].status)
    ensures !Accepts(Exec(s, between), second, id)
    ensures UnderLease(second) && LeaseOf(second) == lease ==> !Accepts(Exec(s, between), second, other)
  {
    hide Step, Enabled;
    TerminalForever(limits, s, between, id);
    DeadOverTrace(limits, s, between, lease);
  }

  /** At most one result is ever accepted for a run, and at most one under a lease. */
  lemma OneResult(limits: Limits, s: Db, first: Timed, between: seq<Timed>, second: Call, id: RunId, other: RunId)
    requires Inv(limits, s) && limits.maxAttempts > 0
    requires Enabled(limits, s, first.call, first.now) && Accepts(s, first.call, id)
    requires Legal(limits, Step(s, first.call, first.now), between)
    ensures var later := Exec(Step(s, first.call, first.now), between);
            && !Accepts(later, second, id)
            && (UnderLease(second) && LeaseOf(second) == LeaseOf(first.call) ==> !Accepts(later, second, other))
  {
    InvKept(limits, s, first.call, first.now);
    AcceptedRow(limits, s, first.call, first.now, id);
    LosingTheClaimKills(limits, s, first.call, first.now, id, LeaseOf(first.call));
    NothingMoreAccepted(limits, Step(s, first.call, first.now), between, LeaseOf(first.call), second, id, other);
  }

  function OutcomeOf(r: Run): Outcome {
    Outcome(r.status, r.response, r.error, r.inputTokens, r.outputTokens)
  }

  lemma ReplyFromStored(limits: Limits, s: Db, between: seq<Timed>, retry: Call, later: Time)
    requires Inv(limits, s) && limits.maxAttempts > 0 && Legal(limits, s, between)
    requires retry.Finish? && retry.run in s.runs
    requires var r := s.runs[retry.run];
             && Terminal(r.status) && r.mode.Plaintext?
             && r.claimedBy == Some(retry.runner) && r.lease == Some(retry.lease)
    ensures var stored, s2 := s.runs[retry.run], Exec(s, between);
            var reply := FinishReply(s2, retry, later);
            && (reply.Some? <==> retry.outcome == OutcomeOf(stored) && s2.runs[retry.run].mode.Plaintext?)
            && (reply.Some? ==> reply.value == s2.runs[retry.run] && VerdictOf(reply.value) == VerdictOf(stored))
  {
    TerminalForever(limits, s, between, retry.run);
  }

  /**
   * Replaying an accepted plaintext result: any time later the same call answers with the record it
   * stored, exactly as long as the conversation has not been scrubbed, and a call under that lease
   * with any other outcome is answered with nothing.
   */
  lemma ReplayPlaintext(limits: Limits, s: Db, c: Call, now: Time, between: seq<Timed>, retry: Call, later: Time)
    requires Inv(limits, s) && limits.maxAttempts > 0 && Enabled(limits, s, c, now)
    requires c.Finish? && Accepts(s, c, c.run)
    requires Legal(limits, Step(s, c, now), between)
    requires retry.Finish? && retry.run == c.run && retry.runner == c.runner && retry.lease == c.lease
    ensures var stored, s2 := Step(s, c, now).runs[c.run], Exec(Step(s, c, now), between);
            var reply := FinishReply(s2, retry, later);
            && (reply.Some? <==> retry.outcome == c.outcome && s2.runs[c.run].mode.Plaintext?)
            && (reply.Some? ==> reply.value == s2.runs[c.run] && VerdictOf(reply.value) == VerdictOf(stored))
  {
    InvKept(limits, s, c, now);
    AcceptedRow(limits, s, c, now, c.run);
    ReplyFromStored(limits, Step(s, c, now), between, retry, later);
  }

  lemma E2eeReplyFromStored(limits: Limits, s: Db, between: seq<Timed>, retry: Call, later: Time)
    requires Inv(limits, s) && limits.maxAttempts > 0 && Legal(limits, s, between)
    requires retry.FinishE2ee? && retry.result.runId in s.runs
    requires var r := s.runs[retry.result.runId];
             Terminal(r.status) && r.mode.E2ee? && r.target == Some(retry.runner) && r.result.Some?
    ensures var stored, s2 := s.runs[retry.result.runId], Exec(s, between);
            var reply := FinishE2eeReply(s2, retry, later);
            && (reply.Some? <==> retry.result.messageId == stored.result.value.messageId)
            && (reply.Some? ==> reply.value == s2.runs[retry.result.runId] && reply.value.result == stored.result
                                && reply.value.status == stored.status)
  {
    TerminalForever(limits, s, between, retry.result.runId);
  }

  /** Replaying an accepted E2EE result by message id always answers with the stored envelope. */
  lemma ReplayE2ee(limits: Limits, s: Db, c: Call, now: Time, between: seq<Timed>, retry: Call, later: Time)
    requires Inv(limits, s) && limits.maxAttempts > 0 && Enabled(limits, s, c, now)
    requires c.FinishE2ee? && Accepts(s, c, c.result.runId)
    requires Legal(limits, Step(s, c, now), between)
    requires retry.FinishE2ee? && retry.runner == c.runner && retry.result.runId == c.result.runId
    ensures var s2 := Exec(Step(s, c, now), between);
            var reply := FinishE2eeReply(s2, retry, later);
            && (reply.Some? <==> retry.result.messageId == c.result.messageId)
            && (reply.Some? ==> reply.value == s2.runs[c.result.runId] && reply.value.result == Some(c.result)
                                && reply.value.status == c.result.status)
  {
    InvKept(limits, s, c, now);
    AcceptedRow(limits, s, c, now, c.result.runId);
    E2eeReplyFromStored(limits, Step(s, c, now), between, retry, later);
  }
}
