// What every reachable database satisfies, proved over every legal interleaving of plaintext and
// E2EE traffic: the shared budget, one run per E2EE runner and conversation, unique leases and
// sequences, and bounded retries.
module RunInvariant {
  import opened Prelude
  import opened RunTypes
  import opened RunSteps

  ghost predicate RowInv(limits: Limits, issued: set<LeaseId>, r: Run) {
    && (r.deletedAt.Some? ==> Terminal(r.status))
    && (r.mode.Scrubbed? ==> Terminal(r.status))
    && (r.mode.E2ee? ==> r.deletedAt.None? && !r.deletedWithConversation && r.request.Some?
                         && r.request.value.conversation == r.conversation)
    && (r.deletedAt.None? ==> !r.deletedWithConversation)
    && (r.status.Running? ==>
          r.claimedBy.Some? && r.lease.Some? && r.startedAt.Some? && 1 <= r.attempts <= limits.maxAttempts)
    && (r.status.Running? && r.mode.Plaintext? ==> r.lastActivity.Some?)
    && (r.status.Running? && r.mode.E2ee? ==> r.claimedBy == r.target && r.leaseExpires.Some?)
    && (NotStarted(r.status) ==> r.claimedBy.None? && r.lease.None?)
    && (r.status.Queued? ==> r.attempts < limits.maxAttempts)
    && (r.status.Waiting? ==> r.attempts == 0)
    && (r.lease.Some? ==> r.lease.value in issued)
    && (Terminal(r.status) && r.mode.E2ee? ==> r.lease.None?)
    && (r.result.Some? ==> Terminal(r.status))
  }

  ghost predicate Compatible(a: Run, b: Run) {
    && (a.lease.Some? ==> a.lease != b.lease)
    && (a.status.Running? && b.status.Running? && a.mode.E2ee? && b.mode.E2ee? ==>
          a.claimedBy != b.claimedBy && a.conversation != b.conversation)
    && (a.mode.E2ee? && b.mode.E2ee? && a.request.Some? && b.request.Some? && a.conversation == b.conversation ==>
          a.request.value.sequence != b.request.value.sequence)
  }

  ghost predicate Inv(limits: Limits, s: Db) {
    && (forall id | id in s.runs :: RowInv(limits, s.issued, s.runs[id]))
    && (forall i, j | i in s.runs && j in s.runs && i != j :: Compatible(s.runs[i], s.runs[j]))
    && |Busy(s)| <= limits.maxJobs
  }

  // ---------------------------------------------------------------- one step, one row

  /** All that a single row has to do with a call being enabled. */
  predicate RowEnabled(limits: Limits, issued: set<LeaseId>, c: Call, id: RunId, r: Run) {
    && (c.Finish? ==> Terminal(c.outcome.status))
    && (c.FinishE2ee? ==> Terminal(c.result.status))
    && (Claims(c, id) ==> r.status.Queued? && r.deletedAt.None? && c.lease !in issued)
    && (Claims(c, id) && c.Claim? ==> r.mode.Plaintext?)
    && (Claims(c, id) && c.ClaimE2ee? ==> r.mode.E2ee? && r.target == Some(c.runner))
    && (c.ClaimE2ee? || c.Recover? ==> c.maxAttempts == limits.maxAttempts)
  }

  lemma EnabledRow(limits: Limits, s: Db, c: Call, now: Time, id: RunId)
    requires Enabled(limits, s, c, now) && id in s.runs
    ensures RowEnabled(limits, s.issued, c, id, s.runs[id])
  {
  }

  // A call that names its run, and one that sweeps over rows, are looked at apart.

  lemma RowKeptUnderLease(limits: Limits, s: Db, c: Call, now: Time, id: RunId, r: Run)
    requires RowInv(limits, s.issued, r) && RowEnabled(limits, s.issued, c, id, r) && UnderLease(c)
    ensures RowInv(limits, s.issued, AfterTarget(s, c, now, r))
  {
  }

  lemma RowKeptByUsers(limits: Limits, s: Db, c: Call, now: Time, id: RunId, r: Run)
    requires RowInv(limits, s.issued, r) && RowEnabled(limits, s.issued, c, id, r)
    requires limits.maxAttempts > 0 && !UnderLease(c)
    ensures RowInv(limits, s.issued, AfterTarget(s, c, now, r))
  {
  }

  lemma RowKeptByClaim(limits: Limits, s: Db, c: Call, now: Time, id: RunId, r: Run)
    requires RowInv(limits, s.issued, r) && RowEnabled(limits, s.issued, c, id, r) && c.Claim?
    ensures RowInv(limits, s.issued + NewLeases(c), AfterSweeping(s, c, now, id, r))
  {
  }

  lemma RowKeptByE2eeClaim(limits: Limits, s: Db, c: Call, now: Time, id: RunId, r: Run)
    requires RowInv(limits, s.issued, r) && RowEnabled(limits, s.issued, c, id, r) && c.ClaimE2ee?
    ensures RowInv(limits, s.issued + NewLeases(c), AfterSweeping(s, c, now, id, r))
  {
  }

  lemma RowKeptByRecovery(limits: Limits, s: Db, c: Call, now: Time, id: RunId, r: Run)
    requires RowInv(limits, s.issued, r) && RowEnabled(limits, s.issued, c, id, r) && c.Recover?
    ensures RowInv(limits, s.issued, AfterSweeping(s, c, now, id, r))
  {
  }

  lemma RowKeptBySweeping(limits: Limits, s: Db, c: Call, now: Time, id: RunId, r: Run)
    requires id in s.runs && r == s.runs[id] && RowInv(limits, s.issued, r)
    requires RowEnabled(limits, s.issued, c, id, r) && !Scheduling(c)
    ensures RowInv(limits, s.issued, AfterSweeping(s, c, now, id, r))
  {
  }

  lemma RowKept(limits: Limits, s: Db, c: Call, now: Time, id: RunId)
    requires id in s.runs && RowInv(limits, s.issued, s.runs[id]) && Enabled(limits, s, c, now)
    requires limits.maxAttempts > 0
    ensures RowInv(limits, s.issued + NewLeases(c), After(s, c, now, id, s.runs[id]))
  {
    hide AfterTarget, AfterSweeping, RowInv, Enabled;
    EnabledRow(limits, s, c, now, id);
    assert s.issued + {} == s.issued;
    if UnderLease(c) {
      RowKeptUnderLease(limits, s, c, now, id, s.runs[id]);
    } else if Target(c).Some? {
      RowKeptByUsers(limits, s, c, now, id, s.runs[id]);
    } else if c.Claim? {
      RowKeptByClaim(limits, s, c, now, id, s.runs[id]);
    } else if c.ClaimE2ee? {
      RowKeptByE2eeClaim(limits, s, c, now, id, s.runs[id]);
    } else if c.Recover? {
      RowKeptByRecovery(limits, s, c, now, id, s.runs[id]);
    } else {
      RowKeptBySweeping(limits, s, c, now, id, s.runs[id]);
    }
  }

  lemma InsertedRow(limits: Limits, s: Db, c: Call, now: Time, id: RunId)
    requires limits.maxAttempts > 0 && Enabled(limits, s, c, now) && id in Inserted(s, c, now)
    ensures id !in s.runs
    ensures RowInv(limits, s.issued + NewLeases(c), Inserted(s, c, now)[id])
    ensures !Inserted(s, c, now)[id].status.Running? && Inserted(s, c, now)[id].lease.None?
  {
  }

  lemma OneInserted(s: Db, c: Call, now: Time)
    ensures forall i, j | i in Inserted(s, c, now) && j in Inserted(s, c, now) :: i == j
  {
  }

  /** Where a running row comes from: it was running, under the same runner, or it has just been claimed. */
  predicate RunsOn(r: Run, r': Run, claimed: bool) {
    r'.status.Running? ==> if r.status.Running? then r'.claimedBy == r.claimedBy else claimed
  }

  lemma RunsOnTarget(s: Db, c: Call, now: Time, r: Run)
    requires (c.Finish? ==> Terminal(c.outcome.status)) && (c.FinishE2ee? ==> Terminal(c.result.status))
    requires r.deletedAt.Some? ==> Terminal(r.status)
    ensures RunsOn(r, AfterTarget(s, c, now, r), false)
  {
  }

  lemma RunsOnSweeping(s: Db, c: Call, now: Time, id: RunId, r: Run)
    requires Claims(c, id) ==> r.status.Queued?
    ensures RunsOn(r, AfterSweeping(s, c, now, id, r), Claims(c, id))
  {
  }

  /** A row is running after a step only if it was running before or the step claimed it. */
  lemma RunningOrigin(limits: Limits, s: Db, c: Call, now: Time, id: RunId)
    requires id in s.runs && RowInv(limits, s.issued, s.runs[id])
    requires RowEnabled(limits, s.issued, c, id, s.runs[id])
    ensures RunsOn(s.runs[id], After(s, c, now, id, s.runs[id]), Claims(c, id))
  {
    hide AfterTarget, AfterSweeping;
    RunsOnTarget(s, c, now, s.runs[id]);
    RunsOnSweeping(s, c, now, id, s.runs[id]);
  }

  predicate LeaseComesFrom(c: Call, id: RunId, r: Run, r': Run) {
    r'.lease == r.lease || r'.lease.None? || (Claims(c, id) && r'.lease == Some(c.lease))
  }

  lemma LeaseTarget(s: Db, c: Call, now: Time, id: RunId, r: Run)
    ensures LeaseComesFrom(c, id, r, AfterTarget(s, c, now, r))
  {
  }

  lemma LeaseSweeping(s: Db, c: Call, now: Time, id: RunId, r: Run)
    ensures LeaseComesFrom(c, id, r, AfterSweeping(s, c, now, id, r))
  {
  }

  /** Only a claim writes a lease; every other step keeps or clears it. */
  lemma LeaseOrigin(s: Db, c: Call, now: Time, id: RunId)
    requires id in s.runs
    ensures LeaseComesFrom(c, id, s.runs[id], After(s, c, now, id, s.runs[id]))
  {
    hide AfterTarget, AfterSweeping;
    LeaseTarget(s, c, now, id, s.runs[id]);
    LeaseSweeping(s, c, now, id, s.runs[id]);
  }

  /** The columns nothing rewrites; the mode only ever becomes scrubbed. */
  predicate SameRun(r: Run, r': Run) {
    && r'.conversation == r.conversation && r'.user == r.user && r'.request == r.request
    && r'.target == r.target && r'.runnerKey == r.runnerKey && r'.model == r.model
    && r'.createdAt == r.createdAt && (r'.mode == r.mode || (r.mode.Plaintext? && r'.mode.Scrubbed?))
  }

  lemma SameRunTarget(s: Db, c: Call, now: Time, r: Run)
    ensures SameRun(r, AfterTarget(s, c, now, r))
  {
  }

  lemma SameRunScheduling(s: Db, c: Call, now: Time, id: RunId, r: Run)
    requires Scheduling(c)
    ensures SameRun(r, AfterSweeping(s, c, now, id, r))
  {
  }

  lemma SameRunSweeping(s: Db, c: Call, now: Time, id: RunId, r: Run)
    requires !Scheduling(c)
    ensures SameRun(r, AfterSweeping(s, c, now, id, r))
  {
  }

  lemma IdentityKept(s: Db, c: Call, now: Time, id: RunId, r: Run)
    ensures SameRun(r, After(s, c, now, id, r))
  {
    hide AfterTarget, AfterSweeping;
    SameRunTarget(s, c, now, r);
    if Scheduling(c) { SameRunScheduling(s, c, now, id, r); } else { SameRunSweeping(s, c, now, id, r); }
  }

  lemma CompatibleKept(limits: Limits, s: Db, c: Call, now: Time, i: RunId, j: RunId)
    requires Inv(limits, s) && limits.maxAttempts > 0 && Enabled(limits, s, c, now)
    requires i in s.runs && j in s.runs && i != j
    ensures Compatible(After(s, c, now, i, s.runs[i]), After(s, c, now, j, s.runs[j]))
  {
    hide After;
    var a, b := s.runs[i], s.runs[j];
    var a', b' := After(s, c, now, i, a), After(s, c, now, j, b);
    assert Compatible(a, b) && Compatible(b, a);
    assert RowInv(limits, s.issued, a) && RowInv(limits, s.issued, b);
    IdentityKept(s, c, now, i, a);
    IdentityKept(s, c, now, j, b);
    LeaseOrigin(s, c, now, i);
    LeaseOrigin(s, c, now, j);
    if a'.status.Running? && b'.status.Running? && a'.mode.E2ee? && b'.mode.E2ee? {
      EnabledRow(limits, s, c, now, i);
      EnabledRow(limits, s, c, now, j);
      RunningOrigin(limits, s, c, now, i);
      RunningOrigin(limits, s, c, now, j);
      RowKept(limits, s, c, now, i);
      RowKept(limits, s, c, now, j);
    }
  }

  lemma CompatibleWithInserted(limits: Limits, s: Db, c: Call, now: Time, i: RunId, j: RunId)
    requires Inv(limits, s) && limits.maxAttempts > 0 && Enabled(limits, s, c, now)
    requires i in s.runs && j in Inserted(s, c, now)
    ensures Compatible(After(s, c, now, i, s.runs[i]), Inserted(s, c, now)[j])
    ensures Compatible(Inserted(s, c, now)[j], After(s, c, now, i, s.runs[i]))
  {
    hide After, Enabled;
    InsertedRow(limits, s, c, now, j);
    IdentityKept(s, c, now, i, s.runs[i]);
    RowKept(limits, s, c, now, i);
    assert RowInv(limits, s.issued, s.runs[i]);
  }

  // ---------------------------------------------------------------- one step, the budget

  lemma BusyOrigin(limits: Limits, s: Db, c: Call, now: Time, id: RunId)
    requires Inv(limits, s) && limits.maxAttempts > 0 && Enabled(limits, s, c, now)
    requires id in Busy(Step(s, c, now))
    ensures id in Busy(s) || Claims(c, id)
  {
    hide After, RowEnabled, Compatible, Enabled;
    if id in Inserted(s, c, now) { InsertedRow(limits, s, c, now, id); }
    assert RowInv(limits, s.issued, s.runs[id]);
    EnabledRow(limits, s, c, now, id);
    RunningOrigin(limits, s, c, now, id);
  }

  function Newly(c: Call): set<RunId> {
    if (c.Claim? || c.ClaimE2ee?) && c.chosen.Some? then {c.chosen.value} else {}
  }

  lemma BusyAfter(limits: Limits, s: Db, c: Call, now: Time)
    requires Inv(limits, s) && limits.maxAttempts > 0 && Enabled(limits, s, c, now)
    ensures |Busy(Step(s, c, now))| <= |Busy(s)| + |Newly(c)|
  {
    var after := Busy(Step(s, c, now));
    forall id | id in after ensures id in Busy(s) + Newly(c) {
      BusyOrigin(limits, s, c, now, id);
    }
    SubsetSize(after, Busy(s) + Newly(c));
  }

  /** A claim happens only while there is room, and adds one. */
  lemma BudgetKept(limits: Limits, s: Db, c: Call, now: Time)
    requires Inv(limits, s) && limits.maxAttempts > 0 && Enabled(limits, s, c, now)
    ensures |Busy(Step(s, c, now))| <= limits.maxJobs
  {
    hide Step;
    BusyAfter(limits, s, c, now);
  }

  /** The invariant is inductive. */
  lemma InvKept(limits: Limits, s: Db, c: Call, now: Time)
    requires Inv(limits, s) && limits.maxAttempts > 0 && Enabled(limits, s, c, now)
    ensures Inv(limits, Step(s, c, now))
  {
    hide After, Inserted, RowInv, Compatible, Enabled, Busy;
    var s' := Step(s, c, now);
    forall id | id in s'.runs ensures RowInv(limits, s'.issued, s'.runs[id]) {
      if id in Inserted(s, c, now) {
        InsertedRow(limits, s, c, now, id);
      } else {
        assert RowInv(limits, s.issued, s.runs[id]);
        RowKept(limits, s, c, now, id);
      }
    }
    OneInserted(s, c, now);
    forall i, j | i in s'.runs && j in s'.runs && i != j ensures Compatible(s'.runs[i], s'.runs[j]) {
      if i in Inserted(s, c, now) {
        InsertedRow(limits, s, c, now, i);
        CompatibleWithInserted(limits, s, c, now, j, i);
      } else if j in Inserted(s, c, now) {
        InsertedRow(limits, s, c, now, j);
        CompatibleWithInserted(limits, s, c, now, i, j);
      } else {
        CompatibleKept(limits, s, c, now, i, j);
      }
    }
    BudgetKept(limits, s, c, now);
  }

  lemma EmptyInv(limits: Limits, csapiUsers: set<UserId>)
    ensures Inv(limits, Empty(csapiUsers))
  {
  }

  lemma {:induction false} InvAlways(limits: Limits, s: Db, trace: seq<Timed>)
    requires Inv(limits, s) && limits.maxAttempts > 0 && Legal(limits, s, trace)
    ensures Inv(limits, Exec(s, trace))
    decreases |trace|
  {
    if trace != [] {
      InvKept(limits, s, trace[0].call, trace[0].now);
      InvAlways(limits, Step(s, trace[0].call, trace[0].now), trace[1..]);
    }
  }

  // ---------------------------------------------------------------- the claims the design makes

  function RunningRuns(s: Db): set<RunId> {
    set id | id in s.runs && s.runs[id].status.Running?
  }

  /**
   * Whatever traffic preceded: the running rows, deleted or not, fit the budget; a runner and a
   * conversation have at most one running E2EE run; no deleted row is active, so restoring one
   * cannot raise the count.
   */
  lemma BudgetHolds(limits: Limits, csapiUsers: set<UserId>, trace: seq<Timed>)
    requires limits.maxAttempts > 0 && Legal(limits, Empty(csapiUsers), trace)
    ensures var s := Exec(Empty(csapiUsers), trace);
            && |RunningRuns(s)| <= limits.maxJobs
            && (forall i, j | i in RunningRuns(s) && j in RunningRuns(s) && i != j
                                && s.runs[i].mode.E2ee? && s.runs[j].mode.E2ee? ::
                  s.runs[i].claimedBy != s.runs[j].claimedBy && s.runs[i].conversation != s.runs[j].conversation)
            && (forall id | id in s.runs && s.runs[id].deletedAt.Some? :: Terminal(s.runs[id].status))
  {
    var s := Exec(Empty(csapiUsers), trace);
    EmptyInv(limits, csapiUsers);
    InvAlways(limits, Empty(csapiUsers), trace);
    forall id | id in RunningRuns(s) ensures id in Busy(s) {
      assert RowInv(limits, s.issued, s.runs[id]);
    }
    SubsetSize(RunningRuns(s), Busy(s));
    forall i, j | i in RunningRuns(s) && j in RunningRuns(s) && i != j
                  && s.runs[i].mode.E2ee? && s.runs[j].mode.E2ee?
      ensures s.runs[i].claimedBy != s.runs[j].claimedBy && s.runs[i].conversation != s.runs[j].conversation
    {
      assert Compatible(s.runs[i], s.runs[j]);
    }
    forall id | id in s.runs && s.runs[id].deletedAt.Some? ensures Terminal(s.runs[id].status) {
      assert RowInv(limits, s.issued, s.runs[id]);
    }
  }

  // ---------------------------------------------------------------- bounded retries

  /** Remaining attempts first, then how far the current attempt still has to go. */
  ghost function Rank(limits: Limits, r: Run): int {
    if Terminal(r.status) then 0
    else if r.status.Waiting? then 2 * limits.maxAttempts + 1
    else if r.status.Queued? then 2 * (limits.maxAttempts - r.attempts)
    else 2 * (limits.maxAttempts - r.attempts) + 1
  }

  /** The arrows of the status diagram, and what each does to the attempt count. */
  predicate Arrow(r: Run, r': Run) {
    if r'.status == r.status then r'.attempts == r.attempts
    else match r'.status
         case Waiting => false
         case Queued => (r.status.Waiting? || r.status.Running?) && r'.attempts == r.attempts
         case Running => r.status.Queued? && r'.attempts == r.attempts + 1
         case _ => !Terminal(r.status)
  }

  lemma StatusChangeLowersRank(limits: Limits, s: Db, c: Call, now: Time, id: RunId)
    requires id in s.runs && RowInv(limits, s.issued, s.runs[id]) && Enabled(limits, s, c, now)
    requires limits.maxAttempts > 0
    ensures var r, r' := s.runs[id], After(s, c, now, id, s.runs[id]);
            && 0 <= Rank(limits, r') && Rank(limits, r) <= 2 * limits.maxAttempts + 1
            && (r'.status != r.status ==> Rank(limits, r') < Rank(limits, r))
            && (r'.status == r.status ==> Rank(limits, r') == Rank(limits, r))
  {
    hide After, Enabled;
    EnabledRow(limits, s, c, now, id);
    RowKept(limits, s, c, now, id);
    StatusMoves(s, c, now, id, s.runs[id]);
  }

  lemma StatusTarget(s: Db, c: Call, now: Time, r: Run)
    requires (c.Finish? ==> Terminal(c.outcome.status)) && (c.FinishE2ee? ==> Terminal(c.result.status))
    requires r.deletedAt.Some? ==> Terminal(r.status)
    ensures Arrow(r, AfterTarget(s, c, now, r))
  {
  }

  lemma StatusSweeping(s: Db, c: Call, now: Time, id: RunId, r: Run)
    requires Claims(c, id) ==> r.status.Queued?
    requires r.deletedAt.Some? ==> Terminal(r.status)
    ensures Arrow(r, AfterSweeping(s, c, now, id, r))
  {
  }

  lemma StatusMoves(s: Db, c: Call, now: Time, id: RunId, r: Run)
    requires (c.Finish? ==> Terminal(c.outcome.status)) && (c.FinishE2ee? ==> Terminal(c.result.status))
    requires Claims(c, id) ==> r.status.Queued?
    requires r.deletedAt.Some? ==> Terminal(r.status)
    ensures Arrow(r, After(s, c, now, id, r))
  {
    hide AfterTarget, AfterSweeping;
    StatusTarget(s, c, now, r);
    StatusSweeping(s, c, now, id, r);
  }

  /** How often the status of row `id` changes over a trace. */
  ghost function StatusChanges(s: Db, trace: seq<Timed>, id: RunId): nat
    requires id in s.runs
    decreases |trace|
  {
    if trace == [] then 0
    else
      var s' := Step(s, trace[0].call, trace[0].now);
      (if s'.runs[id].status != s.runs[id].status then 1 else 0) + StatusChanges(s', trace[1..], id)
  }

  lemma {:induction false} ChangesWithinRank(limits: Limits, s: Db, trace: seq<Timed>, id: RunId)
    requires Inv(limits, s) && limits.maxAttempts > 0 && Legal(limits, s, trace) && id in s.runs
    ensures StatusChanges(s, trace, id) <= Rank(limits, s.runs[id]) <= 2 * limits.maxAttempts + 1
    decreases |trace|
  {
    assert RowInv(limits, s.issued, s.runs[id]);
    if trace != [] {
      var c, now := trace[0].call, trace[0].now;
      if id in Inserted(s, c, now) { InsertedRow(limits, s, c, now, id); }
      StatusChangeLowersRank(limits, s, c, now, id);
      InvKept(limits, s, c, now);
      ChangesWithinRank(limits, Step(s, c, now), trace[1..], id);
    }
  }

  /** No claim checks the attempt count, yet every run changes status at most 2 * maxAttempts + 1 times. */
  lemma BoundedRetries(limits: Limits, csapiUsers: set<UserId>, before: seq<Timed>, after: seq<Timed>, id: RunId)
    requires limits.maxAttempts > 0
    requires Legal(limits, Empty(csapiUsers), before)
    requires Legal(limits, Exec(Empty(csapiUsers), before), after)
    requires id in Exec(Empty(csapiUsers), before).runs
    ensures var s := Exec(Empty(csapiUsers), before);
            && StatusChanges(s, after, id) <= 2 * limits.maxAttempts + 1
            && (s.runs[id].status.Queued? ==> s.runs[id].attempts < limits.maxAttempts)
            && (s.runs[id].status.Running? ==> 1 <= s.runs[id].attempts <= limits.maxAttempts)
  {
    var s := Exec(Empty(csapiUsers), before);
    EmptyInv(limits, csapiUsers);
    InvAlways(limits, Empty(csapiUsers), before);
    ChangesWithinRank(limits, s, after, id);
    assert RowInv(limits, s.issued, s.runs[id]);
  }
}
