// The rows of the `runs` and `conversations` tables, as values.
module RunTypes {
  import opened Prelude

  type RunId = nat
  type ConversationId = nat
  type UserId = nat
  type RunnerId = string
  type KeyId = string
  type LeaseId = nat
  type Time = int

  datatype ContentMode = Plaintext | E2ee | Scrubbed

  datatype Status = Waiting | Queued | Running | Finished | Error | Cancelled

  predicate Terminal(status: Status) {
    status.Finished? || status.Error? || status.Cancelled?
  }

  datatype Executor = Windows | Hermes

  datatype CancelReason =
    | QueueTimeout | IdleTimeout | AbsoluteTimeout
    | ClientAborted | RunnerCancelled | CallerCancelled

  const HERMES_PREFIX := "hermes:"

  /** `model like 'hermes:%'` picks the Hermes executor, everything else Windows. */
  function ExecutorOf(model: string): Executor {
    if HERMES_PREFIX <= model then Hermes else Windows
  }

  datatype E2eeRequest = E2eeRequest(
    runId: RunId, messageId: RunId, conversation: ConversationId,
    workspace: string, model: string, allowWrites: bool,
    runner: RunnerId, runnerKey: KeyId, clientId: string, clientKey: KeyId,
    sequence: nat, previousDigest: Option<string>, body: string)

  datatype E2eeApproval = E2eeApproval(
    messageId: nat, runId: RunId, conversation: ConversationId,
    clientId: string, clientKey: KeyId, runner: RunnerId, runnerKey: KeyId, body: string)

  datatype E2eeProgress = E2eeProgress(
    runId: RunId, conversation: ConversationId, sequence: nat, body: string)

  datatype E2eeResult = E2eeResult(
    messageId: nat, runId: RunId, conversation: ConversationId, status: Status, body: string)

  datatype Run = Run(
    conversation: ConversationId, user: UserId, mode: ContentMode, status: Status, model: string,
    // the claim
    claimedBy: Option<RunnerId>, lease: Option<LeaseId>, attempts: nat, leaseExpires: Option<Time>,
    // clocks
    createdAt: Time, queuedAt: Time, startedAt: Option<Time>, lastActivity: Option<Time>,
    finishedAt: Option<Time>, updatedAt: Time,
    deletedAt: Option<Time>, deletedWithConversation: bool,
    // plaintext content and outcome
    progress: Option<string>, response: Option<string>, error: Option<string>,
    inputTokens: Option<nat>, outputTokens: Option<nat>, cancelReason: Option<CancelReason>,
    // end-to-end encrypted content and outcome
    target: Option<RunnerId>, runnerKey: Option<KeyId>, request: Option<E2eeRequest>,
    approval: Option<E2eeApproval>, progressEnvelope: Option<E2eeProgress>,
    progressSequence: Option<nat>, result: Option<E2eeResult>)

  datatype Conversation = Conversation(
    user: UserId, workspace: string, mode: ContentMode,
    target: Option<RunnerId>, runnerKey: Option<KeyId>, deletedAt: Option<Time>)

  /** The database: both tables, the csapi service users, every lease id handed out, the last clock reading. */
  datatype Db = Db(
    runs: map<RunId, Run>, conversations: map<ConversationId, Conversation>,
    csapiUsers: set<UserId>, issued: set<LeaseId>, clock: Time)

  /** A row as `insert into runs` leaves it before the caller's columns are filled in. */
  function FreshRow(conversation: ConversationId, user: UserId, mode: ContentMode, status: Status,
                    model: string, now: Time): Run
  {
    Run(conversation, user, mode, status, model,
        None, None, 0, None,
        now, now, None, None, None, now, None, false,
        None, None, None, None, None, None,
        None, None, None, None, None, None, None)
  }
}
