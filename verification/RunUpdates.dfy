// What each call does to the tables, as one update of whole tables: the bridge between the step of the state
// machine, defined row by row, and the SQL statements.
module RunUpdates {
  import opened Prelude
  import opened RunTypes
  import opened RunSteps

  predicate CreatedBefore(a: Run, b: Run) {
    a.createdAt < b.createdAt
  }

  /** `id` comes first among `ids`: what `order by ... limit 1` returns. */
  predicate IsFirst(rows: map<RunId, Run>, ids: set<RunId>, before: (Run, Run) -> bool, id: RunId)
    requires ids <= rows.Keys
  {
    id in ids && forall j | j in ids :: !before(rows[j], rows[id])
  }

  /** A non-empty candidate set has a first row under any strict order. */
  lemma {:induction false} FirstExists(rows: map<RunId, Run>, ids: set<RunId>, before: (Run, Run) -> bool)
    requires ids != {} && ids <= rows.Keys
    requires forall a, b, c :: before(a, b) && before(b, c) ==> before(a, c)
    requires forall a :: !before(a, a)
    ensures exists id :: IsFirst(rows, ids, before, id)
  {
    var id :| id in ids;
    var rest := ids - {id};
    if rest == {} {
      assert ids == {id};
      assert IsFirst(rows, ids, before, id);
    } else {
      FirstExists(rows, rest, before);
      var k :| IsFirst(rows, rest, before, k);
      var first := if before(rows[id], rows[k]) then id else k;
      forall j | j in ids ensures !before(rows[j], rows[first]) {
        if j != id { assert j in rest; }
      }
      assert IsFirst(rows, ids, before, first);
    }
  }

  // ---------------------------------------------------------------- calls on one run

  lemma OthersUntouched(s: Db, c: Call, now: Time, id: RunId, r: Run)
    requires Target(c).Some? && id != Target(c).value
    ensures After(s, c, now, id, r) == r
  {
  }

  lemma NothingElse(s: Db, c: Call, now: Time)
    requires Target(c).Some?
    ensures Inserted(s, c, now) == map[] && ConversationsAfter(s, c, now) == s.conversations && NewLeases(c) == {}
  {
  }

  /** A step given as the rows it leaves. */
  lemma RowsOfStep(s: Db, c: Call, now: Time, rows: map<RunId, Run>)
    requires Inserted(s, c, now) == map[] && rows.Keys == s.runs.Keys
    requires forall j | j in s.runs :: rows[j] == After(s, c, now, j, s.runs[j])
    ensures RunsAfter(s, c, now) == rows
  {
  }

  /** Such a call updates that row, if there is one, and nothing else. */
  lemma TargetRows(s: Db, c: Call, now: Time, t: RunId)
    requires Target(c) == Some(t)
    ensures t in s.runs ==> RunsAfter(s, c, now) == s.runs[t := After(s, c, now, t, s.runs[t])]
    ensures t !in s.runs || After(s, c, now, t, s.runs[t]) == s.runs[t] ==> RunsAfter(s, c, now) == s.runs
  {
    hide After, Inserted;
    NothingElse(s, c, now);
    forall id | id in s.runs && id != t ensures After(s, c, now, id, s.runs[id]) == s.runs[id] {
      OthersUntouched(s, c, now, id, s.runs[id]);
    }
    if t in s.runs {
      var r := After(s, c, now, t, s.runs[t]);
      RowsOfStep(s, c, now, s.runs[t := r]);
      if r == s.runs[t] { RowsOfStep(s, c, now, s.runs); }
    } else {
      RowsOfStep(s, c, now, s.runs);
    }
  }

  lemma TargetStep(s: Db, c: Call, now: Time, t: RunId)
    requires Target(c) == Some(t)
    ensures t in s.runs ==>
              Step(s, c, now) == s.(runs := s.runs[t := After(s, c, now, t, s.runs[t])], clock := now)
    ensures t !in s.runs || After(s, c, now, t, s.runs[t]) == s.runs[t] ==> Step(s, c, now) == s.(clock := now)
  {
    NothingElse(s, c, now);
    TargetRows(s, c, now, t);
    assert s.issued + {} == s.issued;
  }

  // ---------------------------------------------------------------- calls on many rows

  /** A step given row by row. */
  lemma SetStep(s: Db, c: Call, now: Time, rows: map<RunId, Run>)
    requires Inserted(s, c, now) == map[] && rows.Keys == s.runs.Keys
    requires forall j | j in s.runs :: rows[j] == After(s, c, now, j, s.runs[j])
    ensures Step(s, c, now) == Db(rows, ConversationsAfter(s, c, now), s.csapiUsers, s.issued + NewLeases(c), now)
  {
    RowsOfStep(s, c, now, rows);
  }

  lemma IdleStep(s: Db, c: Call, now: Time)
    requires Inserted(s, c, now) == map[]
    requires forall j | j in s.runs :: After(s, c, now, j, s.runs[j]) == s.runs[j]
    ensures Step(s, c, now) == Db(s.runs, ConversationsAfter(s, c, now), s.csapiUsers, s.issued + NewLeases(c), now)
  {
    RowsOfStep(s, c, now, s.runs);
  }

  /** The expiry parts of claimNextE2eeRun: out of attempts, or back to the queue. */
  function ExpiredRecovered(s: Db, maxAttempts: nat, now: Time): map<RunId, Run> {
    map id | id in s.runs ::
      var r := s.runs[id];
      if !(r.mode == E2ee && r.status == Running && r.deletedAt == None
           && r.leaseExpires.Some? && r.leaseExpires.value < now) then r
      else if r.attempts >= maxAttempts then
        r.(status := Error, lease := None, claimedBy := None, leaseExpires := None,
           progressEnvelope := None, progressSequence := None, finishedAt := Some(now), updatedAt := now)
      else
        r.(status := Queued, lease := None, claimedBy := None, leaseExpires := None,
           progressEnvelope := None, progressSequence := None, startedAt := None, updatedAt := now)
  }

  /** The claiming part of claimNextE2eeRun. */
  function ClaimedUnder(r: Run, runner: RunnerId, lease: LeaseId, leaseTime: nat, now: Time): Run {
    r.(status := Running, claimedBy := Some(runner), lease := Some(lease), leaseExpires := Some(now + leaseTime),
       startedAt := Some(now), updatedAt := now, attempts := r.attempts + 1)
  }

  lemma E2eeClaimStep(s: Db, c: Call, now: Time, rows: map<RunId, Run>)
    requires c.ClaimE2ee? && (c.chosen.Some? ==> c.chosen.value in s.runs && s.runs[c.chosen.value].status.Queued?)
    requires var expired := ExpiredRecovered(s, c.maxAttempts, now);
             rows == if c.chosen.None? then expired
                     else expired[c.chosen.value :=
                            ClaimedUnder(expired[c.chosen.value], c.runner, c.lease, c.leaseTime, now)]
    ensures Step(s, c, now) == Db(rows, s.conversations, s.csapiUsers, s.issued + NewLeases(c), now)
  {
    hide ExpiredRecovered, ClaimedUnder, E2eeRecoveredRow, E2eeClaimedRow, LeaseExpired;
    forall id | id in s.runs ensures id in rows && rows[id] == After(s, c, now, id, s.runs[id]) {
      ExpiredSame(s, c.maxAttempts, now, id);
      ClaimedSame(s.runs[id], c, now);
    }
    ExpiredKeys(s, c.maxAttempts, now);
    SetStep(s, c, now, rows);
  }

  lemma ExpiredKeys(s: Db, maxAttempts: nat, now: Time)
    ensures ExpiredRecovered(s, maxAttempts, now).Keys == s.runs.Keys
  {
  }

  lemma ExpiredSame(s: Db, maxAttempts: nat, now: Time, id: RunId)
    requires id in s.runs
    ensures id in ExpiredRecovered(s, maxAttempts, now)
    ensures ExpiredRecovered(s, maxAttempts, now)[id]
            == if LeaseExpired(s.runs[id], now) then E2eeRecoveredRow(s.runs[id], maxAttempts, now) else s.runs[id]
    ensures LeaseExpired(s.runs[id], now) ==> s.runs[id].status.Running?
  {
  }

  lemma ClaimedSame(r: Run, c: Call, now: Time)
    requires c.ClaimE2ee?
    ensures ClaimedUnder(r, c.runner, c.lease, c.leaseTime, now)
            == E2eeClaimedRow(r, c.runner, c.lease, c.leaseTime, now)
  {
  }

  lemma EarliestExists(rows: map<RunId, Run>, ids: set<RunId>)
    requires ids != {} && ids <= rows.Keys
    ensures exists id :: IsFirst(rows, ids, EarlierInQueue, id)
    ensures exists id :: IsFirst(rows, ids, CreatedBefore, id)
  {
    FirstExists(rows, ids, EarlierInQueue);
    FirstExists(rows, ids, CreatedBefore);
  }

  /** The candidates of claimNextRun, joined with their conversations. */
  function ClaimableRuns(s: Db, executor: Executor): set<RunId> {
    set id | id in s.runs
             && var r := s.runs[id];
                && r.status == Queued && r.mode == Plaintext && r.deletedAt == None
                && r.conversation in s.conversations && s.conversations[r.conversation].deletedAt == None
                && s.conversations[r.conversation].mode == Plaintext
                && (if executor == Hermes then "hermes:" <= r.model else !("hermes:" <= r.model))
  }

  /** Live runs that are running; only claimed ones count against the budget. */
  function RunningNow(s: Db): set<RunId> {
    set id | id in s.runs && s.runs[id].status == Running && s.runs[id].deletedAt == None
  }

  function ClaimedNow(s: Db): set<RunId> {
    set id | id in RunningNow(s) && s.runs[id].claimedBy != None
  }

  /** The candidates of claimNextE2eeRun: with room, an idle runner and an idle conversation. */
  function E2eeClaimableRuns(s: Db, runner: RunnerId, runnerKey: KeyId, maxJobs: nat): set<RunId> {
    set id | id in s.runs
             && var r := s.runs[id];
                && r.status == Queued && r.mode == E2ee && r.deletedAt == None
                && r.target == Some(runner) && r.runnerKey == Some(runnerKey)
                && r.conversation in s.conversations && s.conversations[r.conversation].deletedAt == None
                && |ClaimedNow(s)| < maxJobs
                && (forall j | j in RunningNow(s) :: !(s.runs[j].mode == E2ee && s.runs[j].claimedBy == Some(runner)))
                && (forall j | j in RunningNow(s) :: s.runs[j].conversation != r.conversation)
  }

  lemma CandidatesAre(s: Db, executor: Executor)
    ensures ClaimableRuns(s, executor) == set id | id in s.runs && Claimable(s, executor, id)
    ensures ClaimedNow(s) == Busy(s)
  {
  }

  lemma E2eeCandidatesAre(s: Db, runner: RunnerId, runnerKey: KeyId, maxJobs: nat)
    ensures E2eeClaimableRuns(s, runner, runnerKey, maxJobs)
            == set id | id in s.runs && E2eeClaimable(s, runner, runnerKey, maxJobs, id)
  {
    assert ClaimedNow(s) == Busy(s);
    forall id | id in s.runs
      ensures id in E2eeClaimableRuns(s, runner, runnerKey, maxJobs)
              <==> E2eeClaimable(s, runner, runnerKey, maxJobs, id)
    {
    }
  }

  /** `order by queued_at asc, created_at asc`. */
  predicate EarlierInQueue(a: Run, b: Run) {
    a.queuedAt < b.queuedAt || (a.queuedAt == b.queuedAt && a.createdAt < b.createdAt)
  }

  lemma PickedFirst(s: Db, c: Call)
    requires c.Claim?
    requires match c.chosen
             case None => |ClaimedNow(s)| >= c.maxJobs || ClaimableRuns(s, c.executor) == {}
             case Some(id) =>
               |ClaimedNow(s)| < c.maxJobs && IsFirst(s.runs, ClaimableRuns(s, c.executor), EarlierInQueue, id)
    ensures PicksFirst(s, c)
  {
    CandidatesAre(s, c.executor);
    assert forall j | j in s.runs && Claimable(s, c.executor, j) :: j in ClaimableRuns(s, c.executor);
  }

  lemma PickedFirstE2ee(s: Db, c: Call)
    requires c.ClaimE2ee?
    requires var ids := E2eeClaimableRuns(s, c.runner, c.runnerKey, c.maxJobs);
             match c.chosen
             case None => ids == {}
             case Some(id) => IsFirst(s.runs, ids, CreatedBefore, id)
    ensures PicksFirstE2ee(s, c)
    ensures c.chosen.Some? ==> c.chosen.value in s.runs && s.runs[c.chosen.value].status.Queued?
  {
    hide E2eeClaimable;
    E2eeCandidatesAre(s, c.runner, c.runnerKey, c.maxJobs);
    assert c.chosen.Some? ==> c.chosen.value in E2eeClaimableRuns(s, c.runner, c.runnerKey, c.maxJobs);
    assert forall j | j in s.runs && E2eeClaimable(s, c.runner, c.runnerKey, c.maxJobs, j) ::
        j in E2eeClaimableRuns(s, c.runner, c.runnerKey, c.maxJobs);
  }

  /** What claimNextRun sets; an earlier start is kept. */
  function ClaimedBy(r: Run, runner: RunnerId, lease: LeaseId, now: Time): Run {
    r.(status := Running, startedAt := if r.startedAt == None then Some(now) else r.startedAt,
       lastActivity := Some(now), claimedBy := Some(runner), lease := Some(lease), attempts := r.attempts + 1,
       updatedAt := now)
  }

  lemma ClaimStep(s: Db, c: Call, now: Time)
    requires c.Claim? && PicksFirst(s, c)
    ensures var rows := if c.chosen.None? then s.runs
                        else s.runs[c.chosen.value := ClaimedBy(s.runs[c.chosen.value], c.runner, c.lease, now)];
            Step(s, c, now) == Db(rows, s.conversations, s.csapiUsers, s.issued + NewLeases(c), now)
  {
    if c.chosen.None? {
      IdleStep(s, c, now);
    } else {
      assert RunsAfter(s, c, now)
          == s.runs[c.chosen.value := ClaimedBy(s.runs[c.chosen.value], c.runner, c.lease, now)];
    }
  }

  /** The columns `insert into runs` names, and the defaults of the others. */
  function NewRow(conversation: ConversationId, user: UserId, model: string, status: Status,
                  response: Option<string>, now: Time): Run
  {
    Run(conversation := conversation, user := user, mode := Plaintext, status := status, model := model,
        claimedBy := None, lease := None, attempts := 0, leaseExpires := None,
        createdAt := now, queuedAt := now, startedAt := None, lastActivity := None,
        finishedAt := if status in {Finished, Error, Cancelled} then Some(now) else None, updatedAt := now,
        deletedAt := None, deletedWithConversation := false,
        progress := None, response := response, error := None, inputTokens := None, outputTokens := None,
        cancelReason := None, target := None, runnerKey := None, request := None, approval := None,
        progressEnvelope := None, progressSequence := None, result := None)
  }

  function NewE2eeRow(user: UserId, q: E2eeRequest, now: Time): Run {
    Run(conversation := q.conversation, user := user, mode := E2ee,
        status := if q.allowWrites then Waiting else Queued, model := q.model,
        claimedBy := None, lease := None, attempts := 0, leaseExpires := None,
        createdAt := now, queuedAt := now, startedAt := None, lastActivity := None,
        finishedAt := None, updatedAt := now, deletedAt := None, deletedWithConversation := false,
        progress := None, response := None, error := None, inputTokens := None, outputTokens := None,
        cancelReason := None, target := Some(q.runner), runnerKey := Some(q.runnerKey), request := Some(q),
        approval := None, progressEnvelope := None, progressSequence := None, result := None)
  }

  lemma CreateStep(s: Db, c: Call, now: Time)
    requires c.Create? && c.run !in s.runs
    ensures Step(s, c, now) ==
            s.(runs := s.runs[c.run := NewRow(c.conversation, c.user, c.model, c.status, c.response, now)],
               clock := now)
  {
    assert RunsAfter(s, c, now) == s.runs[c.run := Inserted(s, c, now)[c.run]];
    assert s.issued + {} == s.issued;
  }

  lemma CreateE2eeStep(s: Db, c: Call, now: Time)
    requires c.CreateE2ee?
    ensures var q, created := c.request, CreateE2eeOutcome(s, c.user, c.request).Created?;
            Step(s, c, now) ==
              Db(if created then s.runs[q.runId := NewE2eeRow(c.user, q, now)] else s.runs,
                 ConversationsAfter(s, c, now), s.csapiUsers, s.issued, now)
  {
    hide CreateE2eeOutcome;
    assert s.issued + {} == s.issued;
    if CreateE2eeOutcome(s, c.user, c.request).Created? {
      assert RunsAfter(s, c, now) == s.runs[c.request.runId := E2eeRow(c.user, c.request, now)];
    } else {
      IdleStep(s, c, now);
    }
  }

  /** `content_mode = 'plaintext' and status = 'running' and deleted_at is null`, of the executor, silent too long. */
  predicate GoneSilent(r: Run, c: Call, now: Time)
    requires c.Recover?
  {
    && r.status == Running && r.mode == Plaintext && r.deletedAt == None
    && (if r.lastActivity.Some? then r.lastActivity.value
        else if r.startedAt.Some? then r.startedAt.value else r.updatedAt) < now - c.staleAfter
    && (if c.executor == Hermes then "hermes:" <= r.model else !("hermes:" <= r.model))
  }

  function SpentRuns(rows: map<RunId, Run>, c: Call, now: Time): set<RunId>
    requires c.Recover?
  {
    set id | id in rows && GoneSilent(rows[id], c, now) && rows[id].attempts >= c.maxAttempts
  }

  function RestRuns(rows: map<RunId, Run>, c: Call, now: Time): set<RunId>
    requires c.Recover?
  {
    set id | id in rows && GoneSilent(rows[id], c, now) && rows[id].attempts < c.maxAttempts
  }

  /** The first update of recoverStaleRuns, and the second. */
  function FailSpent(rows: map<RunId, Run>, c: Call, now: Time): map<RunId, Run>
    requires c.Recover?
  {
    map id | id in rows ::
      if id in SpentRuns(rows, c, now) then
        rows[id].(status := Error, error := Some("runner interrupted too many times"), progress := None,
                  lease := None, claimedBy := None, leaseExpires := None, finishedAt := Some(now), updatedAt := now)
      else rows[id]
  }

  function RequeueRest(rows: map<RunId, Run>, c: Call, now: Time): map<RunId, Run>
    requires c.Recover?
  {
    map id | id in rows ::
      if id in RestRuns(rows, c, now) then
        rows[id].(status := Queued, error := Some("requeued after runner interruption"), progress := None,
                  lease := None, claimedBy := None, leaseExpires := None,
                  queuedAt := now, lastActivity := None, updatedAt := now)
      else rows[id]
  }

  lemma SilentSame(r: Run, c: Call, now: Time)
    requires c.Recover?
    ensures GoneSilent(r, c, now) <==> Stale(r, c.executor, c.staleAfter, now)
    ensures GoneSilent(r, c, now) ==> r.status == Running
  {
  }

  lemma RecoverRow(rows: map<RunId, Run>, c: Call, now: Time, id: RunId)
    requires c.Recover? && id in rows
    ensures var done := RequeueRest(FailSpent(rows, c, now), c, now);
            && done.Keys == rows.Keys
            && done[id] == if Stale(rows[id], c.executor, c.staleAfter, now)
                           then RecoveredRow(rows[id], c.maxAttempts, now) else rows[id]
  {
    hide GoneSilent, Stale;
    SilentSame(rows[id], c, now);
    SilentSame(FailSpent(rows, c, now)[id], c, now);
  }

  lemma RecoverRows(rows: map<RunId, Run>, c: Call, now: Time)
    requires c.Recover?
    ensures var done := RequeueRest(FailSpent(rows, c, now), c, now);
            && done.Keys == rows.Keys
            && forall id | id in rows ::
                 done[id] == if Stale(rows[id], c.executor, c.staleAfter, now)
                             then RecoveredRow(rows[id], c.maxAttempts, now) else rows[id]
  {
    hide Stale, RecoveredRow, GoneSilent;
    forall id | id in rows
      ensures RequeueRest(FailSpent(rows, c, now), c, now)[id]
              == if Stale(rows[id], c.executor, c.staleAfter, now)
                 then RecoveredRow(rows[id], c.maxAttempts, now) else rows[id]
    {
      RecoverRow(rows, c, now, id);
    }
  }

  lemma RestUnaffected(rows: map<RunId, Run>, c: Call, now: Time)
    requires c.Recover?
    ensures RestRuns(FailSpent(rows, c, now), c, now) == RestRuns(rows, c, now)
  {
  }

  /** The second update neither sees nor undoes what the first did. */
  lemma RecoverStep(s: Db, c: Call, now: Time)
    requires c.Recover?
    ensures Step(s, c, now) ==
            Db(RequeueRest(FailSpent(s.runs, c, now), c, now), s.conversations, s.csapiUsers, s.issued, now)
    ensures RestRuns(FailSpent(s.runs, c, now), c, now) == RestRuns(s.runs, c, now)
  {
    RecoverRows(s.runs, c, now);
    RestUnaffected(s.runs, c, now);
    SetStep(s, c, now, RequeueRest(FailSpent(s.runs, c, now), c, now));
  }

  /** The three deadlines of expireCsapiRuns in the order of its `case` expression, if any is passed. */
  function DeadlinePassed(r: Run, c: Call, now: Time): Option<CancelReason>
    requires c.Expire?
  {
    if r.status in {Queued, Waiting, Running} && r.startedAt.Some? && r.startedAt.value <= now - c.absoluteTimeout
    then Some(AbsoluteTimeout)
    else if r.status == Running
         && (if r.lastActivity.Some? then r.lastActivity.value <= now - c.idleTimeout
             else r.startedAt.Some? && r.startedAt.value <= now - c.idleTimeout)
    then Some(IdleTimeout)
    else if r.status in {Queued, Waiting} && r.queuedAt <= now - c.queueTimeout then Some(QueueTimeout)
    else None
  }

  /** What cancelling a plaintext run sets, with the text of each reason. */
  function CancelledFor(r: Run, reason: CancelReason, now: Time): Run {
    var text := match reason
      case QueueTimeout => "run queue timeout"
      case IdleTimeout => "run idle timeout"
      case AbsoluteTimeout => "run execution deadline exceeded"
      case ClientAborted => "client disconnected"
      case RunnerCancelled => "cancelled by runner"
      case CallerCancelled => "cancelled by caller";
    r.(status := Cancelled, error := Some(text), cancelReason := Some(reason), progress := None,
       lease := None, claimedBy := None, leaseExpires := None,
       lastActivity := Some(now), finishedAt := Some(now), updatedAt := now)
  }

  /** The condition of each reason in cancelRun's `where`. */
  predicate MayCancel(r: Run, user: UserId, reason: CancelReason, timeout: int, now: Time) {
    r.user == user && r.mode == Plaintext && r.status in {Queued, Waiting, Running}
    && match reason {
         case QueueTimeout => r.status != Running && r.queuedAt <= now - timeout
         case IdleTimeout =>
           r.status == Running && r.startedAt.Some?
           && (if r.lastActivity.Some? then r.lastActivity.value else r.startedAt.value) <= now - timeout
         case AbsoluteTimeout => r.startedAt.Some? && r.startedAt.value <= now - timeout
         case _ => true
       }
  }

  lemma MayCancelSame(r: Run, user: UserId, reason: CancelReason, timeout: Option<int>, now: Time)
    requires CancelGuarded(reason, timeout)
    ensures MayCancel(r, user, reason, timeout.GetOr(0), now) <==> Cancellable(r, user, reason, timeout, now)
  {
  }

  lemma CancelledSame(r: Run, reason: CancelReason, now: Time)
    ensures CancelledFor(r, reason, now) == CancelledRow(r, reason, now)
  {
  }

  function SweepRows(s: Db, c: Call, now: Time): map<RunId, Run>
    requires c.Expire?
  {
    map id | id in s.runs ::
      var r, passed := s.runs[id], DeadlinePassed(s.runs[id], c, now);
      if r.user in s.csapiUsers && r.mode == Plaintext && r.deletedAt == None && passed.Some?
      then CancelledFor(r, passed.value, now) else r
  }

  lemma SweptSame(s: Db, r: Run, c: Call, now: Time)
    requires c.Expire?
    ensures SweptBy(s, r, c, now)
            <==> r.user in s.csapiUsers && r.mode == Plaintext && r.deletedAt == None && DeadlinePassed(r, c, now).Some?
    ensures SweptBy(s, r, c, now) ==> DeadlinePassed(r, c, now) == Some(SweepReason(r, c, now))
  {
  }

  lemma SweepStep(s: Db, c: Call, now: Time)
    requires c.Expire?
    ensures Step(s, c, now) == Db(SweepRows(s, c, now), s.conversations, s.csapiUsers, s.issued, now)
  {
    hide SweptBy, SweepReason, CancelledRow, CancelledFor, DeadlinePassed;
    forall id | id in s.runs ensures SweepRows(s, c, now)[id] == After(s, c, now, id, s.runs[id]) {
      SweptSame(s, s.runs[id], c, now);
      if SweptBy(s, s.runs[id], c, now) { CancelledSame(s.runs[id], SweepReason(s.runs[id], c, now), now); }
    }
    SetStep(s, c, now, SweepRows(s, c, now));
  }

  function DeleteRows(s: Db, conversation: ConversationId, now: Time): map<RunId, Run> {
    map j | j in s.runs ::
      var r := s.runs[j];
      if r.conversation == conversation && r.mode == Plaintext && r.deletedAt == None
      then Removed(r, "conversation deleted by user", true, now) else r
  }

  /** Soft deletion; a run that has not started is cancelled on the way. */
  function Removed(r: Run, text: string, withConversation: bool, now: Time): Run {
    if r.status in {Queued, Waiting} then
      r.(status := Cancelled, error := if r.error.Some? then r.error else Some(text),
         cancelReason := Some(CallerCancelled), lastActivity := Some(now),
         deletedAt := Some(now), deletedWithConversation := withConversation, updatedAt := now)
    else r.(deletedAt := Some(now), deletedWithConversation := withConversation, updatedAt := now)
  }

  lemma RemovedSame(r: Run, text: string, withConversation: bool, now: Time)
    ensures Removed(r, text, withConversation, now) == DeletedRow(r, text, withConversation, now)
  {
  }

  lemma DeleteStep(s: Db, c: Call, now: Time)
    requires c.DeleteConversation?
    ensures Step(s, c, now) ==
            if ConversationDeletable(s, c.conversation, c.user)
            then s.(runs := DeleteRows(s, c.conversation, now),
                    conversations := s.conversations[c.conversation :=
                                       s.conversations[c.conversation].(deletedAt := Some(now))],
                    clock := now)
            else s.(clock := now)
  {
    hide Removed, DeletedRow, ConversationDeletable;
    if ConversationDeletable(s, c.conversation, c.user) {
      forall id | id in s.runs ensures DeleteRows(s, c.conversation, now)[id] == After(s, c, now, id, s.runs[id]) {
        RemovedSame(s.runs[id], "conversation deleted by user", true, now);
      }
      SetStep(s, c, now, DeleteRows(s, c.conversation, now));
    } else {
      IdleStep(s, c, now);
    }
  }

  function RestoreRows(s: Db, conversation: ConversationId, now: Time): map<RunId, Run> {
    map j | j in s.runs ::
      if s.runs[j].conversation == conversation && s.runs[j].deletedWithConversation
      then s.runs[j].(deletedAt := None, deletedWithConversation := false, updatedAt := now) else s.runs[j]
  }

  lemma RestoreStep(s: Db, c: Call, now: Time)
    requires c.RestoreConversation?
    ensures Step(s, c, now) ==
            if ConversationRestorable(s, c.conversation, c.user)
            then s.(runs := RestoreRows(s, c.conversation, now),
                    conversations := s.conversations[c.conversation :=
                                       s.conversations[c.conversation].(deletedAt := None)],
                    clock := now)
            else s.(clock := now)
  {
    if ConversationRestorable(s, c.conversation, c.user) {
      SetStep(s, c, now, RestoreRows(s, c.conversation, now));
    } else {
      IdleStep(s, c, now);
    }
  }

  function ScrubRows(s: Db, user: UserId, cs: set<ConversationId>, now: Time): map<RunId, Run> {
    map j | j in s.runs ::
      var r := s.runs[j];
      if r.user == user && r.mode == Plaintext && r.conversation in cs then
        r.(response := None, error := None, progress := None, inputTokens := None, outputTokens := None,
           mode := Scrubbed, deletedAt := if r.deletedAt == None then Some(now) else r.deletedAt, updatedAt := now)
      else r
  }

  function ScrubConversations(s: Db, user: UserId, cs: set<ConversationId>, now: Time)
    : map<ConversationId, Conversation>
  {
    map id | id in s.conversations ::
      var k := s.conversations[id];
      if k.user == user && k.mode == Plaintext && id in cs
      then k.(mode := Scrubbed, deletedAt := if k.deletedAt == None then Some(now) else k.deletedAt) else k
  }

  lemma ScrubKeys(s: Db, user: UserId, cs: set<ConversationId>, now: Time)
    ensures ScrubRows(s, user, cs, now).Keys == s.runs.Keys
  {
  }

  lemma ScrubSame(s: Db, user: UserId, cs: set<ConversationId>, now: Time, id: RunId)
    requires id in s.runs
    ensures id in ScrubRows(s, user, cs, now)
    ensures ScrubRows(s, user, cs, now)[id]
            == if ScrubTarget(s.runs[id], user, cs) then ScrubbedRow(s.runs[id], now) else s.runs[id]
  {
  }

  lemma ScrubConversationsSame(s: Db, c: Call, now: Time)
    requires c.Scrub?
    ensures ConversationsAfter(s, c, now)
            == if Scrubbable(s, c.user, c.conversations) then ScrubConversations(s, c.user, c.conversations, now)
               else s.conversations
  {
    hide Scrubbable;
  }

  lemma ScrubStep(s: Db, c: Call, now: Time)
    requires c.Scrub?
    ensures Step(s, c, now) ==
            if Scrubbable(s, c.user, c.conversations)
            then s.(runs := ScrubRows(s, c.user, c.conversations, now),
                    conversations := ScrubConversations(s, c.user, c.conversations, now), clock := now)
            else s.(clock := now)
  {
    hide Scrubbable, ScrubRows, ScrubConversations, ScrubTarget, ScrubbedRow, ConversationsAfter;
    ScrubConversationsSame(s, c, now);
    if Scrubbable(s, c.user, c.conversations) {
      ScrubKeys(s, c.user, c.conversations, now);
      forall id | id in s.runs
        ensures ScrubRows(s, c.user, c.conversations, now)[id] == After(s, c, now, id, s.runs[id])
      {
        ScrubSame(s, c.user, c.conversations, now, id);
      }
      SetStep(s, c, now, ScrubRows(s, c.user, c.conversations, now));
    } else {
      IdleStep(s, c, now);
    }
  }

  /** What claimNextRun's subquery selects. */
  method PickQueued(s: Db, executor: Executor, runner: RunnerId, maxJobs: nat, lease: LeaseId)
    returns (chosen: Option<RunId>)
    ensures PicksFirst(s, Claim(executor, runner, maxJobs, chosen, lease))
  {
    chosen := None;
    var candidates := ClaimableRuns(s, executor);
    if |ClaimedNow(s)| < maxJobs && candidates != {} {
      EarliestExists(s.runs, candidates);
      var id :| id in candidates && IsFirst(s.runs, candidates, EarlierInQueue, id);
      chosen := Some(id);
    }
    PickedFirst(s, Claim(executor, runner, maxJobs, chosen, lease));
  }

  /** What claimNextE2eeRun's candidate part selects. */
  method PickQueuedE2ee(s: Db, runner: RunnerId, runnerKey: KeyId, maxAttempts: nat, maxJobs: nat, leaseTime: nat,
                        lease: LeaseId) returns (chosen: Option<RunId>)
    ensures PicksFirstE2ee(s, ClaimE2ee(runner, runnerKey, maxAttempts, maxJobs, leaseTime, chosen, lease))
  {
    chosen := None;
    var candidates := E2eeClaimableRuns(s, runner, runnerKey, maxJobs);
    if candidates != {} {
      EarliestExists(s.runs, candidates);
      var id :| id in candidates && IsFirst(s.runs, candidates, CreatedBefore, id);
      chosen := Some(id);
    }
    PickedFirstE2ee(s, ClaimE2ee(runner, runnerKey, maxAttempts, maxJobs, leaseTime, chosen, lease));
  }
}
