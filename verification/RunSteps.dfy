// One call value per SQL function of db.ts and e2eeDb.ts, and what that call does to a database.
// A claim's free choices (which of several equal candidates, which fresh lease id) are part of the
// call; `Enabled` says which choices the SQL allows.
module RunSteps {
  import opened Prelude
  import opened RunTypes

  datatype Limits = Limits(maxJobs: nat, maxAttempts: nat)

  datatype Call =
    // conversations and run creation
    | NewConversation(conversation: ConversationId, user: UserId, workspace: string)
    | Create(run: RunId, conversation: ConversationId, user: UserId, model: string, status: Status,
             response: Option<string>)
    | CreateE2ee(user: UserId, request: E2eeRequest)
    | Approve(run: RunId, user: UserId)
    | ApproveE2ee(user: UserId, approval: E2eeApproval)
    // claims and recovery
    | Claim(executor: Executor, runner: RunnerId, maxJobs: nat, chosen: Option<RunId>, lease: LeaseId)
    | ClaimE2ee(runner: RunnerId, runnerKey: KeyId, maxAttempts: nat, maxJobs: nat, leaseTime: nat,
                chosen: Option<RunId>, lease: LeaseId)
    | Recover(executor: Executor, staleAfter: int, maxAttempts: nat)
    // calls made under a lease
    | Renew(run: RunId, runner: RunnerId, lease: LeaseId)
    | Progress(run: RunId, runner: RunnerId, lease: LeaseId, message: string)
    | Finish(run: RunId, runner: RunnerId, lease: LeaseId, outcome: Outcome)
    | RenewE2ee(run: RunId, runner: RunnerId, runnerKey: KeyId, lease: LeaseId, leaseTime: nat)
    | ProgressE2ee(runner: RunnerId, lease: LeaseId, leaseTime: nat, envelope: E2eeProgress)
    | FinishE2ee(runner: RunnerId, lease: LeaseId, result: E2eeResult)
    | RejectE2ee(run: RunId, runner: RunnerId, runnerKey: KeyId, lease: LeaseId)
    // users and timeouts
    | Cancel(run: RunId, user: UserId, reason: CancelReason, timeout: Option<int>)
    | CancelE2ee(run: RunId, user: UserId)
    | Expire(queueTimeout: int, idleTimeout: int, absoluteTimeout: int)
    | DeleteRun(run: RunId, user: UserId)
    | DeleteConversation(conversation: ConversationId, user: UserId)
    | RestoreRun(run: RunId, user: UserId)
    | RestoreConversation(conversation: ConversationId, user: UserId)
    | Scrub(user: UserId, conversations: set<ConversationId>)

  /** What a runner reports for a plaintext run. */
  datatype Outcome = Outcome(
    status: Status, response: Option<string>, error: Option<string>,
    inputTokens: Option<nat>, outputTokens: Option<nat>)

  // ---------------------------------------------------------------- row guards

  predicate HoldsLease(r: Run, runner: RunnerId, lease: LeaseId) {
    r.status.Running? && r.claimedBy == Some(runner) && r.lease == Some(lease)
  }

  predicate HoldsE2eeLease(r: Run, runner: RunnerId, lease: LeaseId) {
    r.mode.E2ee? && r.target == Some(runner) && HoldsLease(r, runner, lease)
  }

  predicate Active(status: Status) {
    status.Queued? || status.Waiting? || status.Running?
  }

  predicate NotStarted(status: Status) {
    status.Queued? || status.Waiting?
  }

  /** Runs that occupy the shared execution budget. */
  function Busy(s: Db): set<RunId> {
    set id | id in s.runs && s.runs[id].status.Running? && s.runs[id].deletedAt.None? && s.runs[id].claimedBy.Some?
  }

  predicate LiveConversation(s: Db, c: ConversationId) {
    c in s.conversations && s.conversations[c].deletedAt.None?
  }

  predicate LivePlaintext(s: Db, c: ConversationId) {
    LiveConversation(s, c) && s.conversations[c].mode.Plaintext?
  }

  predicate Claimable(s: Db, executor: Executor, id: RunId) {
    id in s.runs
    && s.runs[id].status.Queued? && s.runs[id].mode.Plaintext? && s.runs[id].deletedAt.None?
    && LivePlaintext(s, s.runs[id].conversation)
    && ExecutorOf(s.runs[id].model) == executor
  }

  /** `order by queued_at asc, created_at asc`. */
  predicate Before(a: Run, b: Run) {
    a.queuedAt < b.queuedAt || (a.queuedAt == b.queuedAt && a.createdAt < b.createdAt)
  }

  predicate Occupies(r: Run) {
    r.status.Running? && r.deletedAt.None?
  }

  predicate E2eeClaimable(s: Db, runner: RunnerId, runnerKey: KeyId, maxJobs: nat, id: RunId) {
    id in s.runs
    && s.runs[id].mode.E2ee? && s.runs[id].status.Queued? && s.runs[id].deletedAt.None?
    && s.runs[id].target == Some(runner) && s.runs[id].runnerKey == Some(runnerKey)
    && LiveConversation(s, s.runs[id].conversation)
    && |Busy(s)| < maxJobs
    && (forall j | j in s.runs ::
          !(Occupies(s.runs[j]) && s.runs[j].mode.E2ee? && s.runs[j].claimedBy == Some(runner)))
    && (forall j | j in s.runs ::
          !(Occupies(s.runs[j]) && s.runs[j].conversation == s.runs[id].conversation))
  }

  predicate Stale(r: Run, executor: Executor, staleAfter: int, now: Time) {
    r.status.Running? && r.mode.Plaintext? && r.deletedAt.None?
    && Coalesce(r.lastActivity, Coalesce(r.startedAt, Some(r.updatedAt))).value < now - staleAfter
    && ExecutorOf(r.model) == executor
  }

  predicate LeaseExpired(r: Run, now: Time) {
    r.mode.E2ee? && r.status.Running? && r.deletedAt.None?
    && r.leaseExpires.Some? && r.leaseExpires.value < now
  }

  // ---------------------------------------------------------------- deadlines of csapi runs

  predicate QueueExpired(r: Run, timeout: int, now: Time) {
    NotStarted(r.status) && r.queuedAt <= now - timeout
  }

  predicate IdleExpired(r: Run, timeout: int, now: Time) {
    r.status.Running?
    && Coalesce(r.lastActivity, r.startedAt).Some?
    && Coalesce(r.lastActivity, r.startedAt).value <= now - timeout
  }

  predicate AbsoluteExpired(r: Run, timeout: int, now: Time) {
    Active(r.status) && r.startedAt.Some? && r.startedAt.value <= now - timeout
  }

  predicate SweptBy(s: Db, r: Run, c: Call, now: Time)
    requires c.Expire?
  {
    r.user in s.csapiUsers && r.mode.Plaintext? && r.deletedAt.None?
    && (QueueExpired(r, c.queueTimeout, now)
        || AbsoluteExpired(r, c.absoluteTimeout, now)
        || IdleExpired(r, c.idleTimeout, now))
  }

  /** The `case` expression of the sweep: absolute, then idle, then queue. */
  function SweepReason(r: Run, c: Call, now: Time): CancelReason
    requires c.Expire?
  {
    if AbsoluteExpired(r, c.absoluteTimeout, now) then AbsoluteTimeout
    else if IdleExpired(r, c.idleTimeout, now) then IdleTimeout
    else QueueTimeout
  }

  predicate IsTimeout(reason: CancelReason) {
    reason.QueueTimeout? || reason.IdleTimeout? || reason.AbsoluteTimeout?
  }

  /** cancelRun throws unless a timeout reason comes with a positive timeout. */
  predicate CancelGuarded(reason: CancelReason, timeout: Option<int>) {
    IsTimeout(reason) ==> timeout.Some? && timeout.value > 0
  }

  predicate Cancellable(r: Run, user: UserId, reason: CancelReason, timeout: Option<int>, now: Time)
    requires CancelGuarded(reason, timeout)
  {
    r.user == user && r.mode.Plaintext? && Active(r.status)
    && match reason
       case QueueTimeout => NotStarted(r.status) && r.queuedAt <= now - timeout.value
       case IdleTimeout =>
         r.status.Running? && r.startedAt.Some?
         && Coalesce(r.lastActivity, r.startedAt).value <= now - timeout.value
       case AbsoluteTimeout => r.startedAt.Some? && r.startedAt.value <= now - timeout.value
       case _ => true
  }

  function CancelText(reason: CancelReason): string {
    match reason
    case QueueTimeout => "run queue timeout"
    case IdleTimeout => "run idle timeout"
    case AbsoluteTimeout => "run execution deadline exceeded"
    case ClientAborted => "client disconnected"
    case RunnerCancelled => "cancelled by runner"
    case CallerCancelled => "cancelled by caller"
  }

  // ---------------------------------------------------------------- row updates

  function Unclaimed(r: Run): Run {
    r.(claimedBy := None, lease := None, leaseExpires := None)
  }

  function CancelledRow(r: Run, reason: CancelReason, now: Time): Run {
    Unclaimed(r).(status := Cancelled, error := Some(CancelText(reason)), cancelReason := Some(reason),
                  progress := None, lastActivity := Some(now), finishedAt := Some(now), updatedAt := now)
  }

  function FinishedRow(r: Run, o: Outcome, now: Time): Run {
    r.(status := o.status, response := o.response, error := o.error,
       inputTokens := o.inputTokens, outputTokens := o.outputTokens,
       progress := None, lastActivity := Some(now),
       cancelReason := if o.status.Cancelled? then Coalesce(r.cancelReason, Some(RunnerCancelled)) else None,
       finishedAt := Some(now), updatedAt := now)
  }

  function E2eeClosedRow(r: Run, status: Status, result: Option<E2eeResult>, now: Time): Run {
    Unclaimed(r).(status := status, result := result, progressEnvelope := None, progressSequence := None,
                  finishedAt := Some(now), updatedAt := now)
  }

  function DeletedRow(r: Run, text: string, withConversation: bool, now: Time): Run {
    var stopped :=
      if NotStarted(r.status)
      then r.(status := Cancelled, error := Coalesce(r.error, Some(text)),
              cancelReason := Some(CallerCancelled), lastActivity := Some(now))
      else r;
    stopped.(deletedAt := Some(now), deletedWithConversation := withConversation, updatedAt := now)
  }

  function RestoredRow(r: Run, now: Time): Run {
    r.(deletedAt := None, deletedWithConversation := false, updatedAt := now)
  }

  function ScrubbedRow(r: Run, now: Time): Run {
    r.(response := None, error := None, progress := None, inputTokens := None, outputTokens := None,
       mode := Scrubbed, deletedAt := Coalesce(r.deletedAt, Some(now)), updatedAt := now)
  }

  function ClaimedRow(r: Run, runner: RunnerId, lease: LeaseId, now: Time): Run {
    r.(status := Running, startedAt := Coalesce(r.startedAt, Some(now)), lastActivity := Some(now),
       updatedAt := now, claimedBy := Some(runner), lease := Some(lease), attempts := r.attempts + 1)
  }

  function E2eeClaimedRow(r: Run, runner: RunnerId, lease: LeaseId, leaseTime: nat, now: Time): Run {
    r.(status := Running, startedAt := Some(now), updatedAt := now, attempts := r.attempts + 1,
       lease := Some(lease), claimedBy := Some(runner), leaseExpires := Some(now + leaseTime))
  }

  function RecoveredRow(r: Run, maxAttempts: nat, now: Time): Run {
    if r.attempts >= maxAttempts
    then Unclaimed(r).(status := Error, error := Some("runner interrupted too many times"),
                       progress := None, finishedAt := Some(now), updatedAt := now)
    else Unclaimed(r).(status := Queued, error := Some("requeued after runner interruption"),
                       progress := None, queuedAt := now, lastActivity := None, updatedAt := now)
  }

  function E2eeRecoveredRow(r: Run, maxAttempts: nat, now: Time): Run {
    var cleared := Unclaimed(r).(progressEnvelope := None, progressSequence := None, updatedAt := now);
    if r.attempts >= maxAttempts
    then cleared.(status := Error, finishedAt := Some(now))
    else cleared.(status := Queued, startedAt := None)
  }

  // ---------------------------------------------------------------- outcomes that depend on the whole database

  datatype CreateOutcome = Created | Existing | Conflict(reason: string)

  predicate SequenceTaken(s: Db, c: ConversationId, sequence: nat) {
    exists j | j in s.runs ::
      s.runs[j].mode.E2ee? && s.runs[j].request.Some?
      && s.runs[j].conversation == c && s.runs[j].request.value.sequence == sequence
  }

  function CreateE2eeOutcome(s: Db, user: UserId, q: E2eeRequest): CreateOutcome {
    if q.runId != q.messageId || q.model == "" || q.workspace == "" then Conflict("invalid_e2ee_request_identity")
    else if q.runId in s.runs then
      if s.runs[q.runId].user == user && s.runs[q.runId].mode.E2ee? && s.runs[q.runId].request == Some(q)
      then Existing
      else Conflict("run_id_conflict")
    else if q.conversation in s.conversations && s.conversations[q.conversation].user != user then
      Conflict("conversation_not_found")
    else if q.conversation in s.conversations && !s.conversations[q.conversation].mode.E2ee? then
      Conflict("conversation_encryption_downgrade")
    else if q.conversation in s.conversations
         && (s.conversations[q.conversation].workspace != q.workspace
             || s.conversations[q.conversation].target != Some(q.runner)
             || s.conversations[q.conversation].runnerKey != Some(q.runnerKey)) then
      Conflict("conversation_e2ee_context_mismatch")
    else if SequenceTaken(s, q.conversation, q.sequence) then
      Conflict("runs_e2ee_conversation_sequence_unique")
    else Created
  }

  function E2eeRow(user: UserId, q: E2eeRequest, now: Time): Run {
    FreshRow(q.conversation, user, E2ee, if q.allowWrites then Waiting else Queued, q.model, now)
      .(target := Some(q.runner), runnerKey := Some(q.runnerKey), request := Some(q))
  }

  predicate ApprovalMatches(q: E2eeRequest, a: E2eeApproval) {
    q.conversation == a.conversation && q.clientId == a.clientId && q.clientKey == a.clientKey
    && q.runner == a.runner && q.runnerKey == a.runnerKey && q.allowWrites
  }

  /** softDeleteConversation refuses while a live plaintext run of the conversation is running. */
  predicate ConversationDeletable(s: Db, c: ConversationId, user: UserId) {
    LivePlaintext(s, c) && s.conversations[c].user == user
    && forall j | j in s.runs ::
         !(s.runs[j].conversation == c && s.runs[j].mode.Plaintext? && Occupies(s.runs[j]))
  }

  predicate ConversationRestorable(s: Db, c: ConversationId, user: UserId) {
    c in s.conversations && s.conversations[c].user == user && s.conversations[c].deletedAt.Some?
  }

  predicate ScrubTarget(r: Run, user: UserId, cs: set<ConversationId>) {
    r.user == user && r.mode.Plaintext? && r.conversation in cs
  }

  /** scrubLegacyData refuses while any run it would scrub is still active. */
  predicate Scrubbable(s: Db, user: UserId, cs: set<ConversationId>) {
    forall j | j in s.runs :: !(ScrubTarget(s.runs[j], user, cs) && Active(s.runs[j].status))
  }

  // ---------------------------------------------------------------- the step

  /** The one run a call names, for the calls that name one. */
  function Target(c: Call): Option<RunId> {
    match c
    case Approve(run, _) => Some(run)
    case ApproveE2ee(_, a) => Some(a.runId)
    case Renew(run, _, _) => Some(run)
    case Progress(run, _, _, _) => Some(run)
    case Finish(run, _, _, _) => Some(run)
    case RenewE2ee(run, _, _, _, _) => Some(run)
    case ProgressE2ee(_, _, _, e) => Some(e.runId)
    case FinishE2ee(_, _, x) => Some(x.runId)
    case RejectE2ee(run, _, _, _) => Some(run)
    case Cancel(run, _, _, _) => Some(run)
    case CancelE2ee(run, _) => Some(run)
    case DeleteRun(run, _) => Some(run)
    case RestoreRun(run, _) => Some(run)
    case _ => None
  }

  /** What a call that names a run makes of that run's row. */
  function AfterTarget(s: Db, c: Call, now: Time, r: Run): Run {
    match c
    case Approve(_, user) =>
      if r.user == user && r.mode.Plaintext? && r.status.Waiting?
      then r.(status := Queued, queuedAt := now, lastActivity := None, updatedAt := now) else r
    case ApproveE2ee(user, a) =>
      if r.user == user && r.mode.E2ee? && r.request.Some?
         && ApprovalMatches(r.request.value, a) && r.approval.None? && r.status.Waiting?
      then r.(approval := Some(a), status := Queued, updatedAt := now) else r
    case Renew(_, runner, lease) =>
      if r.mode.Plaintext? && r.deletedAt.None? && HoldsLease(r, runner, lease)
      then r.(lastActivity := Some(now)) else r
    case Progress(_, runner, lease, message) =>
      if r.mode.Plaintext? && HoldsLease(r, runner, lease)
      then r.(progress := Some(message), lastActivity := Some(now), updatedAt := now) else r
    case Finish(_, runner, lease, o) =>
      if r.mode.Plaintext? && HoldsLease(r, runner, lease) then FinishedRow(r, o, now) else r
    case RenewE2ee(_, runner, key, lease, leaseTime) =>
      if r.runnerKey == Some(key) && HoldsE2eeLease(r, runner, lease)
      then r.(leaseExpires := Some(now + leaseTime), updatedAt := now) else r
    case ProgressE2ee(runner, lease, leaseTime, e) =>
      if r.conversation == e.conversation && HoldsE2eeLease(r, runner, lease)
         && (if r.progressSequence.Some? then r.progressSequence.value else 0) < e.sequence
      then r.(progressEnvelope := Some(e), progressSequence := Some(e.sequence),
              leaseExpires := Some(now + leaseTime), updatedAt := now)
      else r
    case FinishE2ee(runner, lease, x) =>
      if r.conversation == x.conversation && HoldsE2eeLease(r, runner, lease)
      then E2eeClosedRow(r, x.status, Some(x), now) else r
    case RejectE2ee(_, runner, key, lease) =>
      if r.runnerKey == Some(key) && HoldsE2eeLease(r, runner, lease)
      then E2eeClosedRow(r, Error, r.result, now) else r
    case Cancel(_, user, reason, timeout) =>
      if CancelGuarded(reason, timeout) && Cancellable(r, user, reason, timeout, now)
      then CancelledRow(r, reason, now) else r
    case CancelE2ee(_, user) =>
      if r.user == user && r.mode.E2ee? && Active(r.status) && r.deletedAt.None?
      then Unclaimed(r).(status := Cancelled, cancelReason := Some(CallerCancelled),
                         progressEnvelope := None, progressSequence := None,
                         lastActivity := Some(now), finishedAt := Some(now), updatedAt := now)
      else r
    case DeleteRun(_, user) =>
      if r.user == user && r.mode.Plaintext? && r.deletedAt.None? && !r.status.Running?
      then DeletedRow(r, "deleted by user", false, now) else r
    case RestoreRun(_, user) =>
      if r.user == user && r.deletedAt.Some? && !r.deletedWithConversation
         && LiveConversation(s, r.conversation)
      then RestoredRow(r, now) else r
    case _ => r
  }

  /** What any other call makes of row `r` with key `id`. */
  function AfterSweeping(s: Db, c: Call, now: Time, id: RunId, r: Run): Run {
    match c
    case Claim(_, runner, _, chosen, lease) =>
      if chosen == Some(id) then ClaimedRow(r, runner, lease, now) else r
    case ClaimE2ee(runner, _, maxAttempts, _, leaseTime, chosen, lease) =>
      if LeaseExpired(r, now) then E2eeRecoveredRow(r, maxAttempts, now)
      else if chosen == Some(id) then E2eeClaimedRow(r, runner, lease, leaseTime, now)
      else r
    case Recover(executor, staleAfter, maxAttempts) =>
      if Stale(r, executor, staleAfter, now) then RecoveredRow(r, maxAttempts, now) else r
    case Expire(_, _, _) =>
      if SweptBy(s, r, c, now) then CancelledRow(r, SweepReason(r, c, now), now) else r
    case DeleteConversation(conversation, user) =>
      if ConversationDeletable(s, conversation, user)
         && r.conversation == conversation && r.mode.Plaintext? && r.deletedAt.None?
      then DeletedRow(r, "conversation deleted by user", true, now) else r
    case RestoreConversation(conversation, user) =>
      if ConversationRestorable(s, conversation, user)
         && r.conversation == conversation && r.deletedWithConversation
      then RestoredRow(r, now) else r
    case Scrub(user, cs) =>
      if Scrubbable(s, user, cs) && ScrubTarget(r, user, cs) then ScrubbedRow(r, now) else r
    case _ => r
  }

  /** What call `c`, executed at `now`, makes of the existing row `r` with key `id`. */
  function After(s: Db, c: Call, now: Time, id: RunId, r: Run): Run {
    match Target(c)
    case Some(target) => if id == target then AfterTarget(s, c, now, r) else r
    case None => AfterSweeping(s, c, now, id, r)
  }

  /** The rows call `c` inserts. */
  function Inserted(s: Db, c: Call, now: Time): map<RunId, Run> {
    match c
    case Create(run, conversation, user, model, status, response) =>
      map[run := FreshRow(conversation, user, Plaintext, status, model, now)
                   .(response := response, finishedAt := if Terminal(status) then Some(now) else None)]
    case CreateE2ee(user, q) =>
      if CreateE2eeOutcome(s, user, q).Created? then map[q.runId := E2eeRow(user, q, now)] else map[]
    case _ => map[]
  }

  function ConversationsAfter(s: Db, c: Call, now: Time): map<ConversationId, Conversation> {
    match c
    case NewConversation(id, user, workspace) =>
      s.conversations[id := Conversation(user, workspace, Plaintext, None, None, None)]
    case CreateE2ee(user, q) =>
      if CreateE2eeOutcome(s, user, q).Created? && q.conversation !in s.conversations
      then s.conversations[q.conversation :=
             Conversation(user, q.workspace, E2ee, Some(q.runner), Some(q.runnerKey), None)]
      else s.conversations
    case DeleteConversation(id, user) =>
      if ConversationDeletable(s, id, user)
      then s.conversations[id := s.conversations[id].(deletedAt := Some(now))] else s.conversations
    case RestoreConversation(id, user) =>
      if ConversationRestorable(s, id, user)
      then s.conversations[id := s.conversations[id].(deletedAt := None)] else s.conversations
    case Scrub(user, cs) =>
      if Scrubbable(s, user, cs)
      then map id | id in s.conversations ::
             (var k := s.conversations[id];
              if k.user == user && k.mode.Plaintext? && id in cs
              then k.(mode := Scrubbed, deletedAt := Coalesce(k.deletedAt, Some(now))) else k)
      else s.conversations
    case _ => s.conversations
  }

  function NewLeases(c: Call): set<LeaseId> {
    if (c.Claim? || c.ClaimE2ee?) && c.chosen.Some? then {c.lease} else {}
  }

  function RunsAfter(s: Db, c: Call, now: Time): map<RunId, Run> {
    (map id | id in s.runs :: After(s, c, now, id, s.runs[id])) + Inserted(s, c, now)
  }

  /** Rows are never physically removed. */
  function Step(s: Db, c: Call, now: Time): (s': Db)
    ensures s.runs.Keys <= s'.runs.Keys
  {
    Db(RunsAfter(s, c, now), ConversationsAfter(s, c, now), s.csapiUsers, s.issued + NewLeases(c), now)
  }

  // ---------------------------------------------------------------- families of calls

  /** Calls a worker makes under the lease it was given. */
  predicate UnderLease(c: Call) {
    c.Renew? || c.Progress? || c.Finish? || c.RenewE2ee? || c.ProgressE2ee? || c.FinishE2ee? || c.RejectE2ee?
  }

  /** Calls that hand out or take back claims. */
  predicate Scheduling(c: Call) {
    c.Claim? || c.ClaimE2ee? || c.Recover?
  }

  predicate Claims(c: Call, id: RunId) {
    (c.Claim? || c.ClaimE2ee?) && c.chosen == Some(id)
  }

  // ---------------------------------------------------------------- which calls can happen

  predicate PicksFirst(s: Db, c: Call)
    requires c.Claim?
  {
    match c.chosen
    case None => |Busy(s)| >= c.maxJobs || forall j | j in s.runs :: !Claimable(s, c.executor, j)
    case Some(id) =>
      |Busy(s)| < c.maxJobs && Claimable(s, c.executor, id)
      && forall j | j in s.runs && Claimable(s, c.executor, j) :: !Before(s.runs[j], s.runs[id])
  }

  predicate PicksFirstE2ee(s: Db, c: Call)
    requires c.ClaimE2ee?
  {
    match c.chosen
    case None => forall j | j in s.runs :: !E2eeClaimable(s, c.runner, c.runnerKey, c.maxJobs, j)
    case Some(id) =>
      E2eeClaimable(s, c.runner, c.runnerKey, c.maxJobs, id)
      && forall j | j in s.runs && E2eeClaimable(s, c.runner, c.runnerKey, c.maxJobs, j) ::
           s.runs[id].createdAt <= s.runs[j].createdAt
  }

  /** Ids and leases are fresh random values, foreign keys hold, limits are the deployment's, time does not go back. */
  predicate Enabled(limits: Limits, s: Db, c: Call, now: Time) {
    s.clock <= now
    && match c
       case NewConversation(id, _, _) => id !in s.conversations
       case Create(run, conversation, _, _, status, _) =>
         run !in s.runs && conversation in s.conversations && !status.Running?
       case Claim(_, _, maxJobs, _, lease) =>
         maxJobs == limits.maxJobs && lease !in s.issued && PicksFirst(s, c)
       case ClaimE2ee(_, _, maxAttempts, maxJobs, _, _, lease) =>
         maxJobs == limits.maxJobs && maxAttempts == limits.maxAttempts && lease !in s.issued
         && PicksFirstE2ee(s, c)
       case Recover(_, _, maxAttempts) => maxAttempts == limits.maxAttempts
       case Finish(_, _, _, o) => Terminal(o.status)
       case FinishE2ee(_, _, x) => Terminal(x.status)
       case _ => true
  }

  // ---------------------------------------------------------------- whole runs of the system

  datatype Timed = Timed(call: Call, now: Time)

  function Exec(s: Db, trace: seq<Timed>): (s': Db)
    ensures s.runs.Keys <= s'.runs.Keys
    decreases |trace|
  {
    if trace == [] then s else Exec(Step(s, trace[0].call, trace[0].now), trace[1..])
  }

  predicate Legal(limits: Limits, s: Db, trace: seq<Timed>)
    decreases |trace|
  {
    trace == []
    || (Enabled(limits, s, trace[0].call, trace[0].now)
        && Legal(limits, Step(s, trace[0].call, trace[0].now), trace[1..]))
  }

  const NO_RUNS: map<RunId, Run> := map[]

  function Empty(csapiUsers: set<UserId>): Db {
    Db(NO_RUNS, map[], csapiUsers, {}, 0)
  }
}
