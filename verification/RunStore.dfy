// The two tables as mutable state, one method per SQL function. Each method reports what the function
// reports, moves the whole store by exactly the step its call value stands for, and keeps the invariant.
module RunStore {
  import opened Prelude
  import opened RunTypes
  import opened RunSteps
  import opened RunInvariant
  import opened RunUpdates
  import opened RunRecovery
  import opened LeaseFencing
  import opened CsapiTimeouts

  datatype Approval = Approved(run: Run) | NoRun | Refused(reason: string)

  datatype SoftDelete = Deleted | StillRunning | NotFound

  /** A dead lease changes nothing, and no row is ever removed. */
  lemma LeaseConsequences(s: Db, c: Call, now: Time)
    requires UnderLease(c)
    ensures Dead(s, LeaseOf(c)) ==> Step(s, c, now).runs == s.runs
  {
    hide Step;
    if Dead(s, LeaseOf(c)) { DeadCallDoesNothing(s, c, now); }
  }

  /** A run that stops running has lost its lease for good. */
  lemma RecoveryKills(limits: Limits, s: Db, c: Call, now: Time, id: RunId)
    requires Inv(limits, s) && limits.maxAttempts > 0 && c.Recover? && Enabled(limits, s, c, now)
    requires id in s.runs && s.runs[id].status == Running && Step(s, c, now).runs[id].status != Running
    ensures s.runs[id].lease.Some? && Dead(Step(s, c, now), s.runs[id].lease.value)
  {
    hide Step;
    assert RowInv(limits, s.issued, s.runs[id]);
    LosingTheClaimKills(limits, s, c, now, id, s.runs[id].lease.value);
  }

  /** The rows the two updates report are those that went from running to error, and to the queue. */
  lemma CountedByStatus(s: Db, c: Call, now: Time)
    requires c.Recover?
    ensures forall id | id in s.runs :: id in Step(s, c, now).runs
    ensures var rows := Step(s, c, now).runs;
            && SpentRuns(s.runs, c, now)
               == (set id | id in s.runs && s.runs[id].status == Running && rows[id].status == Error)
            && RestRuns(s.runs, c, now)
               == (set id | id in s.runs && s.runs[id].status == Running && rows[id].status == Queued)
  {
  }

  /** Only a claim makes a run occupy the budget. */
  lemma NoneBusier(limits: Limits, s: Db, c: Call, now: Time)
    requires Inv(limits, s) && limits.maxAttempts > 0 && Enabled(limits, s, c, now) && !c.Claim? && !c.ClaimE2ee?
    ensures Busy(Step(s, c, now)) <= Busy(s)
  {
    hide Step, Inv, Enabled, Busy;
    forall id | id in Busy(Step(s, c, now)) ensures id in Busy(s) {
      BusyOrigin(limits, s, c, now, id);
    }
  }

  lemma WithinBudget(limits: Limits, s: Db)
    requires Inv(limits, s)
    ensures |Busy(s)| <= limits.maxJobs
  {
  }

  lemma ClaimTakes(s: Db, c: Call)
    requires c.Claim? && c.chosen.Some? && PicksFirst(s, c)
    ensures c.chosen.value in s.runs
  {
  }

  lemma E2eeClaimTakes(limits: Limits, s: Db, c: Call, now: Time)
    requires c.ClaimE2ee? && c.chosen.Some? && PicksFirstE2ee(s, c)
    ensures var id := c.chosen.value;
            && id in s.runs && s.runs[id].status.Queued? && ExpiredRecovered(s, c.maxAttempts, now)[id] == s.runs[id]
            && s.runs[id].mode.E2ee? && s.runs[id].target == Some(c.runner)
  {
  }

  /** An E2EE run has its request. */
  lemma E2eeRunningExpires(limits: Limits, s: Db)
    requires Inv(limits, s)
    ensures forall id | id in s.runs && s.runs[id].status == Running ::
              s.runs[id].deletedAt == None && (s.runs[id].mode == E2ee ==> s.runs[id].leaseExpires.Some?)
  {
    forall id | id in s.runs && s.runs[id].status == Running
      ensures s.runs[id].deletedAt == None && (s.runs[id].mode == E2ee ==> s.runs[id].leaseExpires.Some?)
    {
      assert RowInv(limits, s.issued, s.runs[id]);
    }
  }

  lemma HasRequest(limits: Limits, s: Db, id: RunId)
    requires Inv(limits, s) && id in s.runs && s.runs[id].mode.E2ee?
    ensures s.runs[id].request.Some?
  {
    assert RowInv(limits, s.issued, s.runs[id]);
  }

  class RunStore {
    const limits: Limits
    const csapiUsers: set<UserId>
    var runs: map<RunId, Run>
    var conversations: map<ConversationId, Conversation>
    var issued: set<LeaseId>
    var clock: Time

    function Snapshot(): Db
      reads this
    {
      Db(runs, conversations, csapiUsers, issued, clock)
    }

    /** The inductive invariant: within budget, leases distinct, attempts bounded, deleted rows terminal. */
    ghost predicate Valid()
      reads this
    {
      limits.maxAttempts > 0 && Inv(limits, Snapshot())
    }

    constructor (limits: Limits, csapiUsers: set<UserId>)
      requires limits.maxAttempts > 0
      ensures this.limits == limits && Snapshot() == Empty(csapiUsers) && Valid()
    {
      this.limits, this.csapiUsers := limits, csapiUsers;
      runs, conversations, issued, clock := map[], map[], {}, 0;
      new;
      EmptyInv(limits, csapiUsers);
    }

    // -------------------------------------------------------------- creation and approval

    method CreateConversation(id: ConversationId, user: UserId, workspace: string, now: Time)
      requires Valid() && clock <= now
      requires id !in conversations
      modifies this
      ensures Valid()
      ensures Snapshot() == Step(old(Snapshot()), NewConversation(id, user, workspace), now)
    {
      hide Inv, Step, Dead;
      ghost var s, c := Snapshot(), NewConversation(id, user, workspace);
      IdleStep(s, c, now);
      InvKept(limits, s, c, now);
      assert issued + {} == issued;
      clock := now;
      conversations := conversations[id := Conversation(user, workspace, Plaintext, None, None, None)];
    }

    method CreateRun(id: RunId, conversation: ConversationId, user: UserId, model: string, status: Status,
                     response: Option<string>, now: Time) returns (run: Run)
      requires Valid() && clock <= now
      requires id !in runs && conversation in conversations && !status.Running?
      modifies this
      ensures Valid()
      ensures Snapshot() == Step(old(Snapshot()), Create(id, conversation, user, model, status, response), now)
      ensures run == runs[id] && run.status == status && run.attempts == 0 && run.queuedAt == now
    {
      hide Inv, Step, Dead;
      ghost var s, c := Snapshot(), Create(id, conversation, user, model, status, response);
      CreateStep(s, c, now);
      InvKept(limits, s, c, now);
      run := NewRow(conversation, user, model, status, response, now);
      runs, clock := runs[id := run], now;
    }

    method CreateE2eeRun(user: UserId, request: E2eeRequest, now: Time)
      returns (outcome: CreateOutcome, run: Option<Run>)
      requires Valid() && clock <= now
      modifies this
      ensures Valid()
      ensures Snapshot() == Step(old(Snapshot()), CreateE2ee(user, request), now)
      ensures outcome == CreateE2eeOutcome(old(Snapshot()), user, request)
      ensures run == if outcome.Conflict? then None else Some(runs[request.runId])
    {
      hide Inv, Step, Dead;
      ghost var c := CreateE2ee(user, request);
      CreateE2eeStep(Snapshot(), c, now);
      InvKept(limits, Snapshot(), c, now);
      outcome := CheckE2ee(user, request);
      clock := now;
      if outcome.Created? {
        if request.conversation !in conversations {
          conversations := conversations[request.conversation :=
            Conversation(user, request.workspace, E2ee, Some(request.runner), Some(request.runnerKey), None)];
        }
        runs := runs[request.runId := NewE2eeRow(user, request, now)];
      }
      run := if outcome.Conflict? then None else Some(runs[request.runId]);
    }

    /** The tests of createE2eeRun, in their order. */
    method CheckE2ee(user: UserId, request: E2eeRequest) returns (outcome: CreateOutcome)
      ensures outcome == CreateE2eeOutcome(Snapshot(), user, request)
    {
      if request.runId != request.messageId || |request.model| == 0 || |request.workspace| == 0 {
        return Conflict("invalid_e2ee_request_identity");
      }
      if request.runId in runs && runs[request.runId].user == user && runs[request.runId].mode == E2ee {
        if runs[request.runId].request != Some(request) { return Conflict("run_id_conflict"); }
        return Existing;
      }
      if request.runId in runs { return Conflict("run_id_conflict"); }
      if request.conversation in conversations {
        var k := conversations[request.conversation];
        if k.user != user { return Conflict("conversation_not_found"); }
        if k.mode != E2ee { return Conflict("conversation_encryption_downgrade"); }
        if k.workspace != request.workspace || k.target != Some(request.runner)
           || k.runnerKey != Some(request.runnerKey) {
          return Conflict("conversation_e2ee_context_mismatch");
        }
      }
      if exists j | j in runs :: runs[j].conversation == request.conversation && runs[j].mode == E2ee
                                 && runs[j].request.Some? && runs[j].request.value.sequence == request.sequence {
        return Conflict("runs_e2ee_conversation_sequence_unique");
      }
      outcome := Created;
    }

    /** A repeated approval is answered with the run it approved; a different second one is refused. */
    method SubmitE2eeApproval(user: UserId, approval: E2eeApproval, now: Time) returns (outcome: Approval)
      requires Valid() && clock <= now
      modifies this
      ensures Valid()
      ensures Snapshot() == Step(old(Snapshot()), ApproveE2ee(user, approval), now)
      ensures var id := approval.runId;
              outcome ==
                if id !in old(runs) || old(runs)[id].user != user || !old(runs)[id].mode.E2ee? then NoRun
                else if old(runs)[id].request.None? || !ApprovalMatches(old(runs)[id].request.value, approval)
                then Refused("approval_request_mismatch")
                else if old(runs)[id].approval.Some? && old(runs)[id].approval != Some(approval)
                then Refused("approval_already_submitted")
                else if old(runs)[id].approval.None? && !old(runs)[id].status.Waiting? then NoRun
                else Approved(runs[id])
      ensures outcome.Approved? ==> outcome.run.approval == Some(approval)
    {
      hide Inv, Step, Dead;
      ghost var s, c := Snapshot(), ApproveE2ee(user, approval);
      var id := approval.runId;
      TargetStep(s, c, now, id);
      InvKept(limits, s, c, now);
      clock := now;
      if id !in runs || runs[id].user != user || !runs[id].mode.E2ee? { return NoRun; }
      HasRequest(limits, s, id);
      var q := runs[id].request.value;
      if q.conversation != approval.conversation || q.clientId != approval.clientId || q.clientKey != approval.clientKey
         || q.runner != approval.runner || q.runnerKey != approval.runnerKey || !q.allowWrites {
        return Refused("approval_request_mismatch");
      }
      if runs[id].approval.Some? {
        return if runs[id].approval == Some(approval) then Approved(runs[id])
               else Refused("approval_already_submitted");
      }
      if !runs[id].status.Waiting? { return NoRun; }
      runs := runs[id := runs[id].(approval := Some(approval), status := Queued, updatedAt := now)];
      outcome := Approved(runs[id]);
    }

    method ApproveRun(id: RunId, user: UserId, now: Time) returns (run: Option<Run>)
      requires Valid() && clock <= now
      modifies this
      ensures Valid()
      ensures Snapshot() == Step(old(Snapshot()), Approve(id, user), now)
      ensures run.Some? <==> id in old(runs) && old(runs)[id].user == user && old(runs)[id].mode.Plaintext?
                             && old(runs)[id].status.Waiting?
      ensures run.Some? ==> run.value == runs[id] && run.value.status.Queued? && run.value.queuedAt == now
    {
      hide Inv, Step, Dead;
      ghost var s, c := Snapshot(), Approve(id, user);
      TargetStep(s, c, now, id);
      InvKept(limits, s, c, now);
      clock, run := now, None;
      if id in runs && runs[id].user == user && runs[id].mode.Plaintext? && runs[id].status.Waiting? {
        runs := runs[id := runs[id].(status := Queued, queuedAt := now, lastActivity := None, updatedAt := now)];
        run := Some(runs[id]);
      }
    }

    // -------------------------------------------------------------- claims and recovery

    method ClaimNextRun(executor: Executor, runner: RunnerId, lease: LeaseId, now: Time)
      returns (chosen: Option<RunId>)
      requires Valid() && clock <= now
      requires lease !in issued
      modifies this
      ensures Valid()
      ensures Snapshot() == Step(old(Snapshot()), Claim(executor, runner, limits.maxJobs, chosen, lease), now)
      ensures PicksFirst(old(Snapshot()), Claim(executor, runner, limits.maxJobs, chosen, lease))
      ensures |Busy(Snapshot())| <= limits.maxJobs
      ensures chosen.Some? ==> HoldsLease(runs[chosen.value], runner, lease)
      ensures chosen.Some? ==> forall j | j in runs && j != chosen.value :: runs[j].lease != Some(lease)
    {
      hide Inv, Step, Dead;
      hide Busy, After, PicksFirst, Claimable;
      var s := Snapshot();
      chosen := PickQueued(s, executor, runner, limits.maxJobs, lease);
      ghost var c := Claim(executor, runner, limits.maxJobs, chosen, lease);
      ClaimStep(s, c, now);
      InvKept(limits, s, c, now);
      WithinBudget(limits, Step(s, c, now));
      assert issued + {} == issued;
      clock := now;
      if chosen.Some? {
        ClaimTakes(s, c);
        LeaseUnused(limits, s, lease);
        runs := runs[chosen.value := ClaimedBy(runs[chosen.value], runner, lease, now)];
        issued := issued + {lease};
      }
    }

    /** One statement: its capacity and candidate parts see the rows as they were before its own expiry updates. */
    method ClaimNextE2eeRun(runner: RunnerId, runnerKey: KeyId, leaseTime: nat, lease: LeaseId, now: Time)
      returns (chosen: Option<RunId>)
      requires Valid() && clock <= now
      requires lease !in issued
      modifies this
      ensures Valid()
      ensures Snapshot() == Step(old(Snapshot()), E2eeClaim(runner, runnerKey, leaseTime, chosen, lease), now)
      ensures PicksFirstE2ee(old(Snapshot()), E2eeClaim(runner, runnerKey, leaseTime, chosen, lease))
      ensures |Busy(Snapshot())| <= limits.maxJobs
      ensures chosen.Some? ==> HoldsE2eeLease(runs[chosen.value], runner, lease)
      ensures forall id | id in old(runs) && old(runs)[id].status == Running
                          && (old(runs)[id].mode != E2ee || old(runs)[id].leaseExpires.value >= now) ::
                runs[id] == old(runs)[id]
      ensures forall id | id in old(runs) && old(runs)[id].status == Running && old(runs)[id].mode == E2ee
                          && old(runs)[id].leaseExpires.value < now ::
                runs[id].lease == None
                && runs[id].status == if old(runs)[id].attempts < limits.maxAttempts then Queued else Error
    {
      hide Inv, Step, Dead;
      hide Busy, After, PicksFirstE2ee, E2eeClaimable;
      var s := Snapshot();
      chosen := PickQueuedE2ee(s, runner, runnerKey, limits.maxAttempts, limits.maxJobs, leaseTime, lease);
      ghost var c := E2eeClaim(runner, runnerKey, leaseTime, chosen, lease);
      clock, runs := now, ExpiredRecovered(s, limits.maxAttempts, now);
      E2eeRunningExpires(limits, s);
      if chosen.Some? {
        E2eeClaimTakes(limits, s, c, now);
        runs := runs[chosen.value := ClaimedUnder(runs[chosen.value], runner, lease, leaseTime, now)];
        issued := issued + {lease};
      }
      E2eeClaimStep(s, c, now, runs);
      InvKept(limits, s, c, now);
      WithinBudget(limits, Step(s, c, now));
      assert s.issued + {} == s.issued;
    }

    /** Two updates in one transaction: first the runs out of attempts fail, then the others go back to the queue. */
    method RecoverStaleRuns(executor: Executor, staleAfter: int, now: Time) returns (requeued: nat, failed: nat)
      requires Valid() && clock <= now
      modifies this
      ensures Valid()
      ensures Snapshot() == Step(old(Snapshot()), Recover(executor, staleAfter, limits.maxAttempts), now)
      ensures failed == |SpentRuns(old(runs), Recover(executor, staleAfter, limits.maxAttempts), now)|
      ensures requeued == |RestRuns(old(runs), Recover(executor, staleAfter, limits.maxAttempts), now)|
      ensures forall id | id in old(runs) ::
                id in runs && Recovered(old(runs)[id], runs[id], executor, staleAfter, limits.maxAttempts, now)
      ensures failed == |set id | id in old(runs) && old(runs)[id].status == Running && runs[id].status == Error|
      ensures requeued == |set id | id in old(runs) && old(runs)[id].status == Running && runs[id].status == Queued|
      ensures forall id | id in old(runs) && old(runs)[id].status == Running && runs[id].status != Running ::
                old(runs)[id].lease.Some? && Dead(Snapshot(), old(runs)[id].lease.value)
    {
      hide Inv, Step, Dead, Recovered, Stale;
      var c := Recover(executor, staleAfter, limits.maxAttempts);
      ghost var s := Snapshot();
      RecoverStep(s, c, now);
      InvKept(limits, s, c, now);
      CountedByStatus(s, c, now);
      forall id | id in s.runs
        ensures Recovered(s.runs[id], Step(s, c, now).runs[id], executor, staleAfter, limits.maxAttempts, now)
      {
        RecoversTheSilent(s, executor, staleAfter, limits.maxAttempts, now, id);
      }
      forall id | id in s.runs && s.runs[id].status == Running && Step(s, c, now).runs[id].status != Running
        ensures s.runs[id].lease.Some? && Dead(Step(s, c, now), s.runs[id].lease.value)
      {
        RecoveryKills(limits, s, c, now, id);
      }
      clock := now;
      failed := |SpentRuns(runs, c, now)|;
      runs := FailSpent(runs, c, now);
      requeued := |RestRuns(runs, c, now)|;
      runs := RequeueRest(runs, c, now);
    }

    // -------------------------------------------------------------- calls under a lease

    method RenewRunLease(id: RunId, runner: RunnerId, lease: LeaseId, now: Time) returns (ok: bool)
      requires Valid() && clock <= now
      modifies this
      ensures Valid()
      ensures Snapshot() == Step(old(Snapshot()), Renew(id, runner, lease), now)
      ensures ok <==> id in old(runs) && old(runs)[id].mode.Plaintext? && old(runs)[id].deletedAt.None?
                      && HoldsLease(old(runs)[id], runner, lease)
      ensures old(Dead(Snapshot(), lease)) ==> runs == old(runs)
    {
      hide Inv, Step, Dead;
      ghost var s, c := Snapshot(), Renew(id, runner, lease);
      TargetStep(s, c, now, id);
      InvKept(limits, s, c, now);
      LeaseConsequences(s, c, now);
      clock := now;
      ok := id in runs && runs[id].status == Running && runs[id].mode == Plaintext && runs[id].deletedAt == None
            && runs[id].claimedBy == Some(runner) && runs[id].lease == Some(lease);
      if ok { runs := runs[id := runs[id].(lastActivity := Some(now))]; }
    }

    method UpdateRunProgress(id: RunId, runner: RunnerId, lease: LeaseId, message: string, now: Time)
      returns (ok: bool)
      requires Valid() && clock <= now
      modifies this
      ensures Valid()
      ensures Snapshot() == Step(old(Snapshot()), Progress(id, runner, lease, message), now)
      ensures ok <==> id in old(runs) && old(runs)[id].mode.Plaintext? && HoldsLease(old(runs)[id], runner, lease)
      ensures old(Dead(Snapshot(), lease)) ==> runs == old(runs)
    {
      hide Inv, Step, Dead;
      ghost var s, c := Snapshot(), Progress(id, runner, lease, message);
      TargetStep(s, c, now, id);
      InvKept(limits, s, c, now);
      LeaseConsequences(s, c, now);
      clock := now;
      ok := id in runs && runs[id].status == Running && runs[id].mode == Plaintext
            && runs[id].claimedBy == Some(runner) && runs[id].lease == Some(lease);
      if ok {
        runs := runs[id := runs[id].(progress := Some(message), lastActivity := Some(now), updatedAt := now)];
      }
    }

    method FinishRun(id: RunId, runner: RunnerId, lease: LeaseId, outcome: Outcome, now: Time)
      returns (run: Option<Run>)
      requires Valid() && clock <= now
      requires Terminal(outcome.status)
      modifies this
      ensures Valid()
      ensures Snapshot() == Step(old(Snapshot()), Finish(id, runner, lease, outcome), now)
      ensures run == FinishReply(old(Snapshot()), Finish(id, runner, lease, outcome), now)
      ensures run.Some? ==> run.value == runs[id] && Terminal(run.value.status) && Dead(Snapshot(), lease)
      ensures old(Dead(Snapshot(), lease)) ==> runs == old(runs)
    {
      hide Inv, Step, Dead;
      ghost var s, c := Snapshot(), Finish(id, runner, lease, outcome);
      TargetStep(s, c, now, id);
      InvKept(limits, s, c, now);
      LeaseConsequences(s, c, now);
      FinishedIsDead(limits, s, c, now, id, lease);
      clock := now;
      if id in runs && runs[id].status == Running && runs[id].mode == Plaintext
         && runs[id].claimedBy == Some(runner) && runs[id].lease == Some(lease) {
        var reason := if outcome.status != Cancelled then None
                      else if runs[id].cancelReason.Some? then runs[id].cancelReason else Some(RunnerCancelled);
        runs := runs[id := runs[id].(status := outcome.status, response := outcome.response, error := outcome.error,
                                     inputTokens := outcome.inputTokens, outputTokens := outcome.outputTokens,
                                     progress := None, lastActivity := Some(now), cancelReason := reason,
                                     finishedAt := Some(now), updatedAt := now)];
        return Some(runs[id]);
      }
      if id in runs && runs[id].mode.Plaintext? && runs[id].claimedBy == Some(runner) && runs[id].lease == Some(lease)
         && runs[id].status == outcome.status && runs[id].response == outcome.response
         && runs[id].error == outcome.error && runs[id].inputTokens == outcome.inputTokens
         && runs[id].outputTokens == outcome.outputTokens {
        return Some(runs[id]);
      }
      run := None;
    }

    method RenewE2eeLease(id: RunId, runner: RunnerId, runnerKey: KeyId, lease: LeaseId, leaseTime: nat, now: Time)
      returns (ok: bool)
      requires Valid() && clock <= now
      modifies this
      ensures Valid()
      ensures Snapshot() == Step(old(Snapshot()), RenewE2ee(id, runner, runnerKey, lease, leaseTime), now)
      ensures ok <==> id in old(runs) && old(runs)[id].runnerKey == Some(runnerKey)
                      && HoldsE2eeLease(old(runs)[id], runner, lease)
      ensures old(Dead(Snapshot(), lease)) ==> runs == old(runs)
    {
      hide Inv, Step, Dead;
      ghost var s, c := Snapshot(), RenewE2ee(id, runner, runnerKey, lease, leaseTime);
      TargetStep(s, c, now, id);
      InvKept(limits, s, c, now);
      LeaseConsequences(s, c, now);
      clock := now;
      ok := id in runs && runs[id].mode == E2ee && runs[id].status == Running
            && runs[id].target == Some(runner) && runs[id].runnerKey == Some(runnerKey)
            && runs[id].claimedBy == Some(runner) && runs[id].lease == Some(lease);
      if ok { runs := runs[id := runs[id].(leaseExpires := Some(now + leaseTime), updatedAt := now)]; }
    }

    method UpdateE2eeProgress(runner: RunnerId, lease: LeaseId, leaseTime: nat, envelope: E2eeProgress, now: Time)
      returns (ok: bool)
      requires Valid() && clock <= now
      modifies this
      ensures Valid()
      ensures Snapshot() == Step(old(Snapshot()), ProgressE2ee(runner, lease, leaseTime, envelope), now)
      ensures ok <==> envelope.runId in old(runs)
                      && old(runs)[envelope.runId].conversation == envelope.conversation
                      && HoldsE2eeLease(old(runs)[envelope.runId], runner, lease)
                      && old(runs)[envelope.runId].progressSequence.GetOr(0) < envelope.sequence
      ensures old(Dead(Snapshot(), lease)) ==> runs == old(runs)
    {
      hide Inv, Step, Dead;
      ghost var s, c := Snapshot(), ProgressE2ee(runner, lease, leaseTime, envelope);
      var id := envelope.runId;
      TargetStep(s, c, now, id);
      InvKept(limits, s, c, now);
      LeaseConsequences(s, c, now);
      clock := now;
      ok := id in runs && runs[id].conversation == envelope.conversation && runs[id].mode == E2ee
            && runs[id].status == Running && runs[id].target == Some(runner)
            && runs[id].claimedBy == Some(runner) && runs[id].lease == Some(lease)
            && runs[id].progressSequence.GetOr(0) < envelope.sequence;
      if ok {
        runs := runs[id := runs[id].(progressEnvelope := Some(envelope), progressSequence := Some(envelope.sequence),
                                     leaseExpires := Some(now + leaseTime), updatedAt := now)];
      }
    }

    method FinishE2eeRun(runner: RunnerId, lease: LeaseId, envelope: E2eeResult, now: Time) returns (run: Option<Run>)
      requires Valid() && clock <= now
      requires Terminal(envelope.status)
      modifies this
      ensures Valid()
      ensures Snapshot() == Step(old(Snapshot()), FinishE2ee(runner, lease, envelope), now)
      ensures run == FinishE2eeReply(old(Snapshot()), FinishE2ee(runner, lease, envelope), now)
      ensures run.Some? ==> run.value == runs[envelope.runId]
      ensures run.Some? ==> run.value.result.Some? && run.value.result.value.messageId == envelope.messageId
      ensures old(Dead(Snapshot(), lease)) ==> runs == old(runs)
    {
      hide Inv, Step, Dead;
      ghost var s, c := Snapshot(), FinishE2ee(runner, lease, envelope);
      var id := envelope.runId;
      TargetStep(s, c, now, id);
      InvKept(limits, s, c, now);
      LeaseConsequences(s, c, now);
      clock := now;
      if id in runs && runs[id].conversation == envelope.conversation && runs[id].mode == E2ee
         && runs[id].status == Running && runs[id].target == Some(runner)
         && runs[id].claimedBy == Some(runner) && runs[id].lease == Some(lease) {
        runs := runs[id := runs[id].(status := envelope.status, result := Some(envelope),
                                     lease := None, claimedBy := None, leaseExpires := None,
                                     progressEnvelope := None, progressSequence := None,
                                     finishedAt := Some(now), updatedAt := now)];
        return Some(runs[id]);
      }
      if id in runs && runs[id].target == Some(runner) && runs[id].mode.E2ee? && runs[id].result.Some?
         && runs[id].result.value.messageId == envelope.messageId {
        return Some(runs[id]);
      }
      run := None;
    }

    method RejectE2eeRun(id: RunId, runner: RunnerId, runnerKey: KeyId, lease: LeaseId, now: Time)
      returns (run: Option<Run>)
      requires Valid() && clock <= now
      modifies this
      ensures Valid()
      ensures Snapshot() == Step(old(Snapshot()), RejectE2ee(id, runner, runnerKey, lease), now)
      ensures run.Some? <==>
              id in runs && runs[id].mode.E2ee? && runs[id].target == Some(runner)
              && runs[id].runnerKey == Some(runnerKey) && runs[id].status.Error?
              && (HoldsE2eeLease(old(runs)[id], runner, lease) || runs[id].result.None?)
      ensures run.Some? ==> run.value == runs[id]
      ensures old(Dead(Snapshot(), lease)) ==> runs == old(runs)
    {
      hide Inv, Step, Dead;
      ghost var s, c := Snapshot(), RejectE2ee(id, runner, runnerKey, lease);
      TargetStep(s, c, now, id);
      InvKept(limits, s, c, now);
      LeaseConsequences(s, c, now);
      clock := now;
      if id in runs && runs[id].mode == E2ee && runs[id].status == Running
         && runs[id].target == Some(runner) && runs[id].runnerKey == Some(runnerKey)
         && runs[id].claimedBy == Some(runner) && runs[id].lease == Some(lease) {
        runs := runs[id := runs[id].(status := Error, lease := None, claimedBy := None, leaseExpires := None,
                                     progressEnvelope := None, progressSequence := None,
                                     finishedAt := Some(now), updatedAt := now)];
        return Some(runs[id]);
      }
      if id in runs && runs[id].target == Some(runner) && runs[id].runnerKey == Some(runnerKey)
         && runs[id].status.Error? && runs[id].mode.E2ee? && runs[id].result.None? {
        return Some(runs[id]);
      }
      run := None;
    }

    // -------------------------------------------------------------- cancellation and deadlines

    /** A timeout reason without a positive timeout is the source's thrown csapi_timeout_guard_required. */
    method CancelRun(id: RunId, user: UserId, reason: CancelReason, timeout: Option<int>, now: Time)
      returns (thrown: bool, run: Option<Run>)
      requires Valid() && clock <= now
      modifies this
      ensures Valid() && (thrown <==> !CancelGuarded(reason, timeout))
      ensures thrown ==> run == None && Snapshot() == old(Snapshot())
      ensures !thrown ==> Snapshot() == Step(old(Snapshot()), Cancel(id, user, reason, timeout), now)
      ensures !thrown ==> (run.Some? <==> id in old(runs) && Cancellable(old(runs)[id], user, reason, timeout, now))
      ensures run.Some? ==> run.value == runs[id] && run.value.status.Cancelled? && run.value.lease.None?
      ensures reason in {ClientAborted, RunnerCancelled, CallerCancelled} ==>
                (run.Some? <==> id in old(runs) && old(runs)[id].user == user && old(runs)[id].mode == Plaintext
                                && old(runs)[id].status in {Queued, Waiting, Running})
    {
      hide Inv, Step, Dead, CancelledFor, MayCancel, Cancellable;
      ghost var asked := reason in {ClientAborted, RunnerCancelled, CallerCancelled};
      if reason in {QueueTimeout, IdleTimeout, AbsoluteTimeout} && (timeout == None || timeout.value <= 0) {
        return true, None;
      }
      ghost var s, c := Snapshot(), Cancel(id, user, reason, timeout);
      TargetStep(s, c, now, id);
      InvKept(limits, s, c, now);
      clock, thrown, run := now, false, None;
      if id in runs {
        MayCancelSame(runs[id], user, reason, timeout, now);
        if asked { AskedCancel(runs[id], user, reason, timeout.GetOr(0), now); }
      }
      if id in runs && MayCancel(runs[id], user, reason, timeout.GetOr(0), now) {
        CancelledSame(runs[id], reason, now);
        runs := runs[id := CancelledFor(runs[id], reason, now)];
        run := Some(runs[id]);
      }
    }

    method CancelE2eeRun(id: RunId, user: UserId, now: Time) returns (run: Option<Run>)
      requires Valid() && clock <= now
      modifies this
      ensures Valid()
      ensures Snapshot() == Step(old(Snapshot()), CancelE2ee(id, user), now)
      ensures run.Some? <==> id in old(runs) && old(runs)[id].user == user && old(runs)[id].mode.E2ee?
                             && Active(old(runs)[id].status) && old(runs)[id].deletedAt.None?
      ensures run.Some? ==> run.value == runs[id] && run.value.status.Cancelled? && run.value.lease.None?
    {
      hide Inv, Step, Dead;
      ghost var s, c := Snapshot(), CancelE2ee(id, user);
      TargetStep(s, c, now, id);
      InvKept(limits, s, c, now);
      clock, run := now, None;
      if id in runs && runs[id].user == user && runs[id].mode == E2ee
         && runs[id].status in {Queued, Waiting, Running} && runs[id].deletedAt == None {
        runs := runs[id := runs[id].(status := Cancelled, cancelReason := Some(CallerCancelled),
                                     lease := None, claimedBy := None, leaseExpires := None,
                                     progressEnvelope := None, progressSequence := None,
                                     lastActivity := Some(now), finishedAt := Some(now), updatedAt := now)];
        run := Some(runs[id]);
      }
    }

    method ExpireCsapiRuns(queueTimeout: int, idleTimeout: int, absoluteTimeout: int, now: Time)
      returns (queued: nat, idle: nat, absolute: nat)
      requires Valid() && clock <= now
      modifies this
      ensures Valid()
      ensures Snapshot() == Step(old(Snapshot()), Expire(queueTimeout, idleTimeout, absoluteTimeout), now)
      ensures var c := Expire(queueTimeout, idleTimeout, absoluteTimeout);
              && queued == |SweptFor(old(Snapshot()), c, now, QueueTimeout)|
              && idle == |SweptFor(old(Snapshot()), c, now, IdleTimeout)|
              && absolute == |SweptFor(old(Snapshot()), c, now, AbsoluteTimeout)|
              && queued + idle + absolute == |Swept(old(Snapshot()), c, now)|
              && forall id | LiveCsapi(Snapshot(), id) :: !PastDeadline(runs[id], c, now)
    {
      hide Inv, Step, Dead;
      var s := Snapshot();
      var c := Expire(queueTimeout, idleTimeout, absoluteTimeout);
      SweepStep(s, c, now);
      InvKept(limits, s, c, now);
      CountsAddUp(s, c, now);
      NothingLate(limits, s, c, now);
      clock := now;
      queued := |SweptFor(s, c, now, QueueTimeout)|;
      idle := |SweptFor(s, c, now, IdleTimeout)|;
      absolute := |SweptFor(s, c, now, AbsoluteTimeout)|;
      runs := SweepRows(s, c, now);
    }

    // -------------------------------------------------------------- soft delete and restore

    method SoftDeleteRun(id: RunId, user: UserId, now: Time) returns (result: SoftDelete)
      requires Valid() && clock <= now
      modifies this
      ensures Valid()
      ensures Snapshot() == Step(old(Snapshot()), DeleteRun(id, user), now)
      ensures result.Deleted? <==> id in old(runs) && old(runs)[id].user == user && old(runs)[id].mode.Plaintext?
                                   && old(runs)[id].deletedAt.None? && !old(runs)[id].status.Running?
      ensures result.Deleted? ==> runs[id].deletedAt == Some(now) && Terminal(runs[id].status)
      ensures result.StillRunning? <==> id in old(runs) && old(runs)[id].user == user && old(runs)[id].mode.Plaintext?
                                        && old(runs)[id].deletedAt.None? && old(runs)[id].status.Running?
    {
      hide Inv, Step, Dead;
      ghost var s, c := Snapshot(), DeleteRun(id, user);
      TargetStep(s, c, now, id);
      InvKept(limits, s, c, now);
      clock := now;
      if id in runs && runs[id].user == user && runs[id].mode.Plaintext? && runs[id].deletedAt.None? {
        if runs[id].status.Running? { return StillRunning; }
        runs := runs[id := Removed(runs[id], "deleted by user", false, now)];
        return Deleted;
      }
      result := NotFound;
    }

    method SoftDeleteConversation(id: ConversationId, user: UserId, now: Time) returns (result: SoftDelete)
      requires Valid() && clock <= now
      modifies this
      ensures Valid()
      ensures Snapshot() == Step(old(Snapshot()), DeleteConversation(id, user), now)
      ensures result.Deleted? <==> ConversationDeletable(old(Snapshot()), id, user)
      ensures result.NotFound? <==> !(LivePlaintext(old(Snapshot()), id) && old(conversations)[id].user == user)
    {
      hide Inv, Step, Dead;
      var s := Snapshot();
      ghost var c := DeleteConversation(id, user);
      DeleteStep(s, c, now);
      InvKept(limits, s, c, now);
      clock := now;
      if id !in conversations || conversations[id].user != user || conversations[id].mode != Plaintext
         || conversations[id].deletedAt != None { return NotFound; }
      if exists j | j in runs :: runs[j].conversation == id && runs[j].mode == Plaintext
                                 && runs[j].deletedAt == None && runs[j].status == Running {
        return StillRunning;
      }
      runs := DeleteRows(s, id, now);
      conversations := conversations[id := conversations[id].(deletedAt := Some(now))];
      result := Deleted;
    }

    /** Restoring never makes a run occupy the budget. */
    method RestoreRun(id: RunId, user: UserId, now: Time) returns (run: Option<Run>)
      requires Valid() && clock <= now
      modifies this
      ensures Valid()
      ensures Snapshot() == Step(old(Snapshot()), RunSteps.RestoreRun(id, user), now)
      ensures run.Some? <==> id in old(runs) && old(runs)[id].user == user && old(runs)[id].deletedAt.Some?
                             && !old(runs)[id].deletedWithConversation
                             && LiveConversation(old(Snapshot()), old(runs)[id].conversation)
      ensures run.Some? ==> run.value == runs[id] == RestoredRow(old(runs)[id], now)
      ensures run.None? ==> runs == old(runs)
      ensures Busy(Snapshot()) <= old(Busy(Snapshot()))
    {
      hide Inv, Step, Dead;
      ghost var s, c := Snapshot(), RunSteps.RestoreRun(id, user);
      TargetStep(s, c, now, id);
      InvKept(limits, s, c, now);
      NoneBusier(limits, s, c, now);
      clock, run := now, None;
      if id in runs && runs[id].user == user && runs[id].deletedAt.Some? && !runs[id].deletedWithConversation
         && runs[id].conversation in conversations && conversations[runs[id].conversation].deletedAt.None? {
        runs := runs[id := runs[id].(deletedAt := None, deletedWithConversation := false, updatedAt := now)];
        run := Some(runs[id]);
      }
    }

    method RestoreConversation(id: ConversationId, user: UserId, now: Time) returns (ok: bool)
      requires Valid() && clock <= now
      modifies this
      ensures Valid()
      ensures Snapshot() == Step(old(Snapshot()), RunSteps.RestoreConversation(id, user), now)
      ensures ok <==> ConversationRestorable(old(Snapshot()), id, user)
      ensures ok ==> LiveConversation(Snapshot(), id)
                     && forall j | j in runs && runs[j].conversation == id :: !runs[j].deletedWithConversation
      ensures Busy(Snapshot()) <= old(Busy(Snapshot()))
    {
      hide Inv, Step, Dead;
      var s := Snapshot();
      ghost var c := RunSteps.RestoreConversation(id, user);
      RestoreStep(s, c, now);
      InvKept(limits, s, c, now);
      NoneBusier(limits, s, c, now);
      clock := now;
      ok := id in conversations && conversations[id].user == user && conversations[id].deletedAt.Some?;
      if ok {
        conversations := conversations[id := conversations[id].(deletedAt := None)];
        runs := RestoreRows(s, id, now);
      }
    }

    /** Throws, changing nothing, while a run it would scrub is still active. */
    method ScrubLegacyData(user: UserId, cs: set<ConversationId>, now: Time) returns (ok: bool, scrubbed: nat)
      requires Valid() && clock <= now
      modifies this
      ensures Valid()
      ensures Snapshot() == Step(old(Snapshot()), Scrub(user, cs), now)
      ensures ok <==> Scrubbable(old(Snapshot()), user, cs)
      ensures ok ==> scrubbed == |set j | j in old(runs) && ScrubTarget(old(runs)[j], user, cs)|
      ensures ok ==> forall j | j in old(runs) && old(runs)[j].user == user && old(runs)[j].mode == Plaintext
                                && old(runs)[j].conversation in cs :: j in runs && Erased(runs[j])
      ensures !ok ==> runs == old(runs) && conversations == old(conversations)
    {
      hide Inv, Step, Dead, ScrubRows, ScrubConversations;
      var s := Snapshot();
      ghost var c := Scrub(user, cs);
      ScrubStep(s, c, now);
      InvKept(limits, s, c, now);
      clock := now;
      ok, scrubbed := true, 0;
      if exists j | j in runs :: runs[j].user == user && runs[j].mode == Plaintext && runs[j].conversation in cs
                                 && runs[j].status in {Queued, Waiting, Running} {
        ok := false;
      }
      if ok {
        scrubbed := |set j | j in runs && runs[j].user == user && runs[j].mode == Plaintext
                             && runs[j].conversation in cs|;
        assert (set j | j in s.runs && s.runs[j].user == user && s.runs[j].mode == Plaintext
                        && s.runs[j].conversation in cs)
            == set j | j in s.runs && ScrubTarget(s.runs[j], user, cs);
        NothingLeft(s, user, cs, now);
        conversations := ScrubConversations(s, user, cs, now);
        runs := ScrubRows(s, user, cs, now);
      }
    }

    function E2eeClaim(runner: RunnerId, runnerKey: KeyId, leaseTime: nat, chosen: Option<RunId>, lease: LeaseId)
      : Call
    {
      ClaimE2ee(runner, runnerKey, limits.maxAttempts, limits.maxJobs, leaseTime, chosen, lease)
    }
  }

  /** Nothing that was answered in plaintext is left of the run. */
  predicate Erased(r: Run) {
    && r.mode == Scrubbed && r.response == None && r.error == None && r.progress == None
    && r.inputTokens == None && r.outputTokens == None && r.deletedAt != None
  }

  lemma NothingLeft(s: Db, user: UserId, cs: set<ConversationId>, now: Time)
    ensures forall j | j in s.runs && s.runs[j].user == user && s.runs[j].mode == Plaintext
                       && s.runs[j].conversation in cs ::
              j in ScrubRows(s, user, cs, now) && Erased(ScrubRows(s, user, cs, now)[j])
  {
  }

  lemma AskedCancel(r: Run, user: UserId, reason: CancelReason, timeout: int, now: Time)
    requires reason in {ClientAborted, RunnerCancelled, CallerCancelled}
    ensures MayCancel(r, user, reason, timeout, now)
            <==> r.user == user && r.mode == Plaintext && r.status in {Queued, Waiting, Running}
  {
  }

  lemma LeaseUnused(limits: Limits, s: Db, lease: LeaseId)
    requires Inv(limits, s) && lease !in s.issued
    ensures forall j | j in s.runs :: s.runs[j].lease != Some(lease)
  {
    forall j | j in s.runs ensures s.runs[j].lease != Some(lease) { assert RowInv(limits, s.issued, s.runs[j]); }
  }

  lemma NothingLate(limits: Limits, s: Db, c: Call, now: Time)
    requires c.Expire? && Enabled(limits, s, c, now)
    ensures forall id | LiveCsapi(Step(s, c, now), id) :: !PastDeadline(Step(s, c, now).runs[id], c, now)
  {
    forall id | LiveCsapi(Step(s, c, now), id) ensures !PastDeadline(Step(s, c, now).runs[id], c, now) {
      SweepLeavesNothingLate(limits, s, c, now, id);
    }
  }

  /** After an accepted or replayed finish the lease is dead. */
  lemma FinishedIsDead(limits: Limits, s: Db, c: Call, now: Time, id: RunId, lease: LeaseId)
    requires Inv(limits, s) && limits.maxAttempts > 0 && c.Finish? && Enabled(limits, s, c, now)
    requires c.run == id && c.lease == lease
    ensures FinishReply(s, c, now).Some? ==> Dead(Step(s, c, now), lease)
  {
    if FinishReply(s, c, now).Some? {
      var r := s.runs[id];
      assert RowInv(limits, s.issued, r);
      if HoldsLease(r, c.runner, lease) {
        AcceptedRow(limits, s, c, now, id);
        LosingTheClaimKills(limits, s, c, now, id, lease);
      } else {
        StoredIsDead(limits, s, id, lease);
        DeadStaysDead(limits, s, c, now, lease);
      }
    }
  }

  lemma StoredIsDead(limits: Limits, s: Db, id: RunId, lease: LeaseId)
    requires Inv(limits, s) && id in s.runs && s.runs[id].lease == Some(lease) && !s.runs[id].status.Running?
    ensures Dead(s, lease)
  {
    assert RowInv(limits, s.issued, s.runs[id]);
    forall j | j in s.runs && s.runs[j].status.Running? ensures s.runs[j].lease != Some(lease) {
      assert Compatible(s.runs[id], s.runs[j]);
    }
  }
}
