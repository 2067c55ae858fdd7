// No overtaking among plaintext runs of one executor, under a strictly advancing clock.
module QueueOrder {
  import opened Prelude
  import opened RunTypes
  import opened RunSteps
  import opened RunInvariant

  /** Stamps lie in the past and creation stamps are distinct: what a strictly advancing clock gives. */
  ghost predicate Stamped(s: Db) {
    && (forall id | id in s.runs :: s.runs[id].createdAt <= s.clock && s.runs[id].queuedAt <= s.clock)
    && (forall i, j | i in s.runs && j in s.runs && i != j :: s.runs[i].createdAt != s.runs[j].createdAt)
  }

  /** A plaintext run that may still be claimed sits in a live plaintext conversation of its own user. */
  ghost predicate WellHoused(s: Db) {
    forall id | id in s.runs && s.runs[id].mode.Plaintext? && !Terminal(s.runs[id].status) ::
      LivePlaintext(s, s.runs[id].conversation)
      && s.conversations[s.runs[id].conversation].user == s.runs[id].user
  }

  /** What callers of createRun establish through getConversation: a live plaintext conversation of the user. */
  predicate CreatesIntoLive(s: Db, c: Call) {
    c.Create? ==> LivePlaintext(s, c.conversation) && s.conversations[c.conversation].user == c.user
  }

  ghost predicate Ready(limits: Limits, s: Db) {
    Inv(limits, s) && Stamped(s) && WellHoused(s) && limits.maxAttempts > 0
  }

  predicate Fair(limits: Limits, s: Db, c: Call, now: Time) {
    Enabled(limits, s, c, now) && s.clock < now && CreatesIntoLive(s, c)
  }

  // ---------------------------------------------------------------- the strengthened invariant

  /** A row's place in the queue changes only as it joins the queue, and then to now. */
  predicate Requeued(r: Run, r': Run, now: Time) {
    r'.queuedAt == r.queuedAt || (r'.queuedAt == now && r'.status.Queued? && !r.status.Queued?)
  }

  lemma RequeuedTarget(s: Db, c: Call, now: Time, r: Run)
    ensures Requeued(r, AfterTarget(s, c, now, r), now)
  {
  }

  lemma RequeuedSweeping(s: Db, c: Call, now: Time, id: RunId, r: Run)
    ensures Requeued(r, AfterSweeping(s, c, now, id, r), now)
  {
  }

  lemma ClocksOfRow(s: Db, c: Call, now: Time, id: RunId, r: Run)
    ensures var r' := After(s, c, now, id, r); Requeued(r, r', now) && r'.createdAt == r.createdAt
  {
    hide AfterTarget, AfterSweeping;
    RequeuedTarget(s, c, now, r);
    RequeuedSweeping(s, c, now, id, r);
    IdentityKept(s, c, now, id, r);
  }

  lemma ClocksOfInserted(s: Db, c: Call, now: Time, id: RunId)
    requires id in Inserted(s, c, now)
    ensures Inserted(s, c, now)[id].queuedAt == now && Inserted(s, c, now)[id].createdAt == now
    ensures forall j | j in Inserted(s, c, now) :: j == id
  {
  }

  lemma StampOf(limits: Limits, s: Db, c: Call, now: Time, id: RunId)
    requires Ready(limits, s) && Fair(limits, s, c, now) && id in Step(s, c, now).runs
    ensures var r := Step(s, c, now).runs[id];
            && r.createdAt <= now && r.queuedAt <= now
            && if id in s.runs then r.createdAt == s.runs[id].createdAt
               else r.createdAt == now && id in Inserted(s, c, now)
  {
    hide After, Inv;
    if id in Inserted(s, c, now) {
      InsertedRow(limits, s, c, now, id);
      ClocksOfInserted(s, c, now, id);
    } else {
      ClocksOfRow(s, c, now, id, s.runs[id]);
    }
  }

  lemma StampedKept(limits: Limits, s: Db, c: Call, now: Time)
    requires Ready(limits, s) && Fair(limits, s, c, now)
    ensures Stamped(Step(s, c, now))
  {
    hide RunsAfter, Inserted, Inv, Enabled;
    var rows := Step(s, c, now).runs;
    OneInserted(s, c, now);
    forall id | id in rows ensures rows[id].createdAt <= now && rows[id].queuedAt <= now {
      StampOf(limits, s, c, now, id);
    }
    forall i, j | i in rows && j in rows && i != j ensures rows[i].createdAt != rows[j].createdAt {
      StampOf(limits, s, c, now, i);
      StampOf(limits, s, c, now, j);
    }
  }

  lemma ActiveOrigin(limits: Limits, s: Db, c: Call, now: Time, id: RunId)
    requires id in s.runs && RowInv(limits, s.issued, s.runs[id]) && Enabled(limits, s, c, now)
    requires !Terminal(After(s, c, now, id, s.runs[id]).status)
    ensures !Terminal(s.runs[id].status)
  {
    hide After, Enabled;
    EnabledRow(limits, s, c, now, id);
    StatusMoves(s, c, now, id, s.runs[id]);
  }

  /** A conversation stays live while it houses an active plaintext run of its user. */
  lemma HouseKept(limits: Limits, s: Db, c: Call, now: Time, id: RunId)
    requires Enabled(limits, s, c, now)
    requires id in s.runs && RowInv(limits, s.issued, s.runs[id])
    requires s.runs[id].mode.Plaintext? && !Terminal(s.runs[id].status)
    requires LivePlaintext(s, s.runs[id].conversation)
    requires s.conversations[s.runs[id].conversation].user == s.runs[id].user
    requires !Terminal(After(s, c, now, id, s.runs[id]).status)
    ensures var k := ConversationsAfter(s, c, now);
            s.runs[id].conversation in k && k[s.runs[id].conversation] == s.conversations[s.runs[id].conversation]
  {
  }

  lemma WellHousedKept(limits: Limits, s: Db, c: Call, now: Time)
    requires Ready(limits, s) && Fair(limits, s, c, now)
    ensures WellHoused(Step(s, c, now))
  {
    hide After, Enabled, RowInv;
    var s' := Step(s, c, now);
    forall id | id in s'.runs && s'.runs[id].mode.Plaintext? && !Terminal(s'.runs[id].status)
      ensures LivePlaintext(s', s'.runs[id].conversation)
      ensures s'.conversations[s'.runs[id].conversation].user == s'.runs[id].user
    {
      if id in Inserted(s, c, now) {
        InsertedRow(limits, s, c, now, id);
      } else {
        assert RowInv(limits, s.issued, s.runs[id]);
        ActiveOrigin(limits, s, c, now, id);
        IdentityKept(s, c, now, id, s.runs[id]);
        HouseKept(limits, s, c, now, id);
      }
    }
  }

  lemma ReadyKept(limits: Limits, s: Db, c: Call, now: Time)
    requires Ready(limits, s) && Fair(limits, s, c, now)
    ensures Ready(limits, Step(s, c, now))
  {
    InvKept(limits, s, c, now);
    StampedKept(limits, s, c, now);
    WellHousedKept(limits, s, c, now);
  }

  // ---------------------------------------------------------------- who is ahead

  predicate Waits(s: Db, id: RunId) {
    id in s.runs && Claimable(s, ExecutorOf(s.runs[id].model), id)
  }

  /** The claimable runs of the same executor that the queue order puts before `id`. */
  function Ahead(s: Db, id: RunId): set<RunId>
    requires id in s.runs
  {
    set j | j in s.runs && Claimable(s, ExecutorOf(s.runs[id].model), j) && Before(s.runs[j], s.runs[id])
  }

  /** `id` is still the same queue entry after the step. */
  predicate StillWaits(s: Db, s': Db, id: RunId) {
    Waits(s, id) && Waits(s', id) && s'.runs[id].queuedAt == s.runs[id].queuedAt
  }

  lemma ClaimableKeptOrigin(limits: Limits, s: Db, c: Call, now: Time, executor: Executor, j: RunId)
    requires Ready(limits, s) && Fair(limits, s, c, now) && j in s.runs && j !in Inserted(s, c, now)
    requires Claimable(Step(s, c, now), executor, j) && Step(s, c, now).runs[j].queuedAt < now
    ensures Claimable(s, executor, j) && !Claims(c, j)
    ensures Step(s, c, now).runs[j].queuedAt == s.runs[j].queuedAt
    ensures Step(s, c, now).runs[j].createdAt == s.runs[j].createdAt
  {
    hide After, Enabled, RowEnabled, RowInv;
    ClocksOfRow(s, c, now, j, s.runs[j]);
    IdentityKept(s, c, now, j, s.runs[j]);
    assert RowInv(limits, s.issued, s.runs[j]);
    EnabledRow(limits, s, c, now, j);
    QueuedUnlessMoved(limits, s, c, now, j);
    ActiveIsHoused(limits, s, j);
  }

  lemma ActiveIsHoused(limits: Limits, s: Db, j: RunId)
    requires Ready(limits, s) && j in s.runs && s.runs[j].mode.Plaintext? && s.runs[j].status.Queued?
    ensures LivePlaintext(s, s.runs[j].conversation)
  {
  }

  lemma ClaimableOrigin(limits: Limits, s: Db, c: Call, now: Time, executor: Executor, j: RunId)
    requires Ready(limits, s) && Fair(limits, s, c, now) && Claimable(Step(s, c, now), executor, j)
    requires Step(s, c, now).runs[j].queuedAt < now
    ensures Claimable(s, executor, j) && !Claims(c, j)
    ensures Step(s, c, now).runs[j].queuedAt == s.runs[j].queuedAt
    ensures Step(s, c, now).runs[j].createdAt == s.runs[j].createdAt
  {
    hide After, Inv, Enabled;
    if j in Inserted(s, c, now) { ClocksOfInserted(s, c, now, j); }
    ClaimableKeptOrigin(limits, s, c, now, executor, j);
  }

  lemma AheadOrigin(limits: Limits, s: Db, c: Call, now: Time, id: RunId, j: RunId)
    requires Ready(limits, s) && Fair(limits, s, c, now) && StillWaits(s, Step(s, c, now), id)
    requires j in Ahead(Step(s, c, now), id)
    ensures j in Ahead(s, id) && !Claims(c, j)
  {
    hide After, Enabled, Inv;
    IdentityKept(s, c, now, id, s.runs[id]);
    if id in Inserted(s, c, now) { InsertedRow(limits, s, c, now, id); }
    ClaimableOrigin(limits, s, c, now, ExecutorOf(s.runs[id].model), j);
  }

  predicate QueuedEarlier(r: Run, now: Time) {
    r.status.Queued? && r.mode.Plaintext? && r.deletedAt.None? && r.queuedAt < now
  }

  lemma QueuedTarget(limits: Limits, s: Db, c: Call, now: Time, j: RunId, r: Run)
    requires RowInv(limits, s.issued, r) && RowEnabled(limits, s.issued, c, j, r)
    requires QueuedEarlier(AfterTarget(s, c, now, r), now)
    ensures r.status.Queued? && r.mode.Plaintext? && r.deletedAt.None?
  {
  }

  lemma QueuedSweeping(limits: Limits, s: Db, c: Call, now: Time, j: RunId, r: Run)
    requires RowInv(limits, s.issued, r) && RowEnabled(limits, s.issued, c, j, r)
    requires QueuedEarlier(AfterSweeping(s, c, now, j, r), now)
    ensures r.status.Queued? && r.mode.Plaintext? && r.deletedAt.None? && !Claims(c, j)
  {
  }

  /** A row found queued with an old stamp was already queued. */
  lemma QueuedUnlessMoved(limits: Limits, s: Db, c: Call, now: Time, j: RunId)
    requires j in s.runs && RowInv(limits, s.issued, s.runs[j]) && RowEnabled(limits, s.issued, c, j, s.runs[j])
    requires QueuedEarlier(After(s, c, now, j, s.runs[j]), now)
    ensures s.runs[j].status.Queued? && s.runs[j].mode.Plaintext? && s.runs[j].deletedAt.None? && !Claims(c, j)
  {
    hide AfterTarget, AfterSweeping, RowInv, RowEnabled;
    if Target(c).None? {
      QueuedSweeping(limits, s, c, now, j, s.runs[j]);
    } else if Target(c).value == j {
      QueuedTarget(limits, s, c, now, j, s.runs[j]);
    }
  }

  /** No call lets another run overtake a waiting one. */
  lemma NoOvertaking(limits: Limits, s: Db, c: Call, now: Time, id: RunId)
    requires Ready(limits, s) && Fair(limits, s, c, now) && StillWaits(s, Step(s, c, now), id)
    ensures Ahead(Step(s, c, now), id) <= Ahead(s, id)
  {
    hide Step, Inv, Fair;
    forall j | j in Ahead(Step(s, c, now), id) ensures j in Ahead(s, id) {
      AheadOrigin(limits, s, c, now, id, j);
    }
  }

  predicate ClaimsFor(c: Call, executor: Executor) {
    c.Claim? && c.executor == executor && c.chosen.Some?
  }

  /** A successful claim of the executor takes one of the runs ahead, unless it takes the run itself. */
  lemma ClaimTakesFromAhead(limits: Limits, s: Db, c: Call, now: Time, id: RunId)
    requires Ready(limits, s) && Fair(limits, s, c, now) && StillWaits(s, Step(s, c, now), id)
    requires ClaimsFor(c, ExecutorOf(s.runs[id].model))
    ensures |Ahead(Step(s, c, now), id)| < |Ahead(s, id)|
  {
    hide After, Inv;
    var s' := Step(s, c, now);
    var taken := c.chosen.value;
    IdentityKept(s, c, now, id, s.runs[id]);
    ClaimableOrigin(limits, s, c, now, ExecutorOf(s.runs[id].model), id);
    assert Before(s.runs[taken], s.runs[id]);
    assert taken in Ahead(s, id);
    forall j | j in Ahead(s', id) ensures j in Ahead(s, id) - {taken} {
      AheadOrigin(limits, s, c, now, id, j);
    }
    SubsetSize(Ahead(s', id), Ahead(s, id) - {taken});
  }

  /** A queued plaintext run of `id`'s executor, earlier than `id`, sitting in conversation `k`. */
  predicate EarlierIn(s: Db, k: ConversationId, id: RunId, j: RunId) {
    id in s.runs && j in s.runs && k in s.conversations && s.conversations[k].mode.Plaintext?
    && s.runs[j].conversation == k && s.runs[j].status.Queued? && s.runs[j].mode.Plaintext?
    && ExecutorOf(s.runs[j].model) == ExecutorOf(s.runs[id].model) && Before(s.runs[j], s.runs[id])
  }

  lemma RestoredSweeping(limits: Limits, s: Db, c: Call, now: Time, j: RunId, r: Run)
    requires RowInv(limits, s.issued, r) && c.RestoreConversation?
    ensures var r' := AfterSweeping(s, c, now, j, r);
            r'.status == r.status && (r.status.Queued? ==> r.deletedAt.None? && r' == r)
  {
  }

  lemma RowsAfterRestore(s: Db, c: Call, now: Time)
    requires c.RestoreConversation?
    ensures Step(s, c, now).runs.Keys == s.runs.Keys
    ensures forall j | j in s.runs :: Step(s, c, now).runs[j] == AfterSweeping(s, c, now, j, s.runs[j])
  {
    hide AfterTarget, AfterSweeping;
  }

  lemma QueuedRowUnrestored(limits: Limits, s: Db, c: Call, now: Time, j: RunId)
    requires Inv(limits, s) && c.RestoreConversation? && j in s.runs
    ensures Step(s, c, now).runs.Keys == s.runs.Keys
    ensures Step(s, c, now).runs[j].status == s.runs[j].status
    ensures s.runs[j].status.Queued? ==> s.runs[j].deletedAt.None? && Step(s, c, now).runs[j] == s.runs[j]
  {
    hide Step, AfterSweeping, RowInv, Compatible;
    RowsAfterRestore(s, c, now);
    RestoredSweeping(limits, s, c, now, j, s.runs[j]);
  }

  lemma LiveAfterRestore(s: Db, c: Call, now: Time, k: ConversationId)
    requires c.RestoreConversation? && ConversationRestorable(s, c.conversation, c.user)
    ensures LivePlaintext(Step(s, c, now), k) <==>
            LivePlaintext(s, k) || (k == c.conversation && s.conversations[k].mode.Plaintext?)
  {
  }

  lemma ClaimableAfterRestore(limits: Limits, s: Db, c: Call, now: Time, executor: Executor, j: RunId)
    requires Inv(limits, s) && c.RestoreConversation? && ConversationRestorable(s, c.conversation, c.user)
    requires j in s.runs
    ensures Claimable(Step(s, c, now), executor, j) <==>
            Claimable(s, executor, j)
            || (s.runs[j].conversation == c.conversation && s.conversations[c.conversation].mode.Plaintext?
                && s.runs[j].status.Queued? && s.runs[j].mode.Plaintext? && ExecutorOf(s.runs[j].model) == executor)
  {
    hide Step, Inv;
    QueuedRowUnrestored(limits, s, c, now, j);
    LiveAfterRestore(s, c, now, s.runs[j].conversation);
    var r, r' := s.runs[j], Step(s, c, now).runs[j];
    if r.status.Queued? { assert r' == r; } else { assert !r'.status.Queued?; }
  }

  lemma RestoreGains(limits: Limits, s: Db, c: Call, now: Time, id: RunId, j: RunId)
    requires Inv(limits, s) && c.RestoreConversation? && ConversationRestorable(s, c.conversation, c.user)
    requires Waits(s, id) && j in s.runs
    ensures j in Ahead(Step(s, c, now), id) && j !in Ahead(s, id) <==> EarlierIn(s, c.conversation, id, j)
  {
    hide Step, Inv;
    QueuedRowUnrestored(limits, s, c, now, id);
    QueuedRowUnrestored(limits, s, c, now, j);
    ClaimableAfterRestore(limits, s, c, now, ExecutorOf(s.runs[id].model), j);
  }

  /**
   * Without that care at creation the claim fails at restoreConversation, and exactly then: restoring
   * lets a run overtake iff the conversation holds an earlier queued run of the same executor.
   */
  lemma RestoreOvertakesIff(limits: Limits, s: Db, c: Call, now: Time, id: RunId)
    requires Inv(limits, s) && c.RestoreConversation? && ConversationRestorable(s, c.conversation, c.user)
    requires Waits(s, id)
    ensures Ahead(Step(s, c, now), id) <= Ahead(s, id) <==> !exists j :: EarlierIn(s, c.conversation, id, j)
  {
    forall j | j in s.runs
      ensures j in Ahead(Step(s, c, now), id) && j !in Ahead(s, id) <==> EarlierIn(s, c.conversation, id, j)
    {
      RestoreGains(limits, s, c, now, id, j);
    }
  }

  // ---------------------------------------------------------------- over whole runs

  predicate FairTrace(limits: Limits, s: Db, trace: seq<Timed>)
    decreases |trace|
  {
    trace == []
    || (Fair(limits, s, trace[0].call, trace[0].now)
        && FairTrace(limits, Step(s, trace[0].call, trace[0].now), trace[1..]))
  }

  predicate WaitsThroughout(s: Db, trace: seq<Timed>, id: RunId)
    decreases |trace|
  {
    trace == []
    || (StillWaits(s, Step(s, trace[0].call, trace[0].now), id)
        && WaitsThroughout(Step(s, trace[0].call, trace[0].now), trace[1..], id))
  }

  function ClaimCount(trace: seq<Timed>, executor: Executor): nat {
    if trace == [] then 0
    else (if ClaimsFor(trace[0].call, executor) then 1 else 0) + ClaimCount(trace[1..], executor)
  }

  /**
   * However creates, approvals, requeues, cancels and restores interleave, a run can stay waiting
   * through at most as many successful claims of its executor as there were runs ahead of it.
   */
  lemma {:induction false} WaitIsBounded(limits: Limits, s: Db, trace: seq<Timed>, id: RunId)
    requires Ready(limits, s) && FairTrace(limits, s, trace) && Waits(s, id) && WaitsThroughout(s, trace, id)
    ensures ClaimCount(trace, ExecutorOf(s.runs[id].model)) <= |Ahead(s, id)|
    decreases |trace|
  {
    hide After;
    if trace != [] {
      var c, now := trace[0].call, trace[0].now;
      ReadyKept(limits, s, c, now);
      IdentityKept(s, c, now, id, s.runs[id]);
      if id in Inserted(s, c, now) { InsertedRow(limits, s, c, now, id); }
      NoOvertaking(limits, s, c, now, id);
      SubsetSize(Ahead(Step(s, c, now), id), Ahead(s, id));
      if ClaimsFor(c, ExecutorOf(s.runs[id].model)) { ClaimTakesFromAhead(limits, s, c, now, id); }
      WaitIsBounded(limits, Step(s, c, now), trace[1..], id);
    }
  }

  lemma EmptyReady(limits: Limits, csapiUsers: set<UserId>)
    requires limits.maxAttempts > 0
    ensures Ready(limits, Empty(csapiUsers))
  {
  }

  lemma {:induction false} ReadyAlways(limits: Limits, s: Db, trace: seq<Timed>)
    requires Ready(limits, s) && FairTrace(limits, s, trace)
    ensures Ready(limits, Exec(s, trace))
    decreases |trace|
  {
    if trace != [] {
      ReadyKept(limits, s, trace[0].call, trace[0].now);
      ReadyAlways(limits, Step(s, trace[0].call, trace[0].now), trace[1..]);
    }
  }

  /** The bound, from an empty database on. */
  lemma NoStarvation(limits: Limits, csapiUsers: set<UserId>, before: seq<Timed>, after: seq<Timed>, id: RunId)
    requires limits.maxAttempts > 0 && FairTrace(limits, Empty(csapiUsers), before)
    requires var s := Exec(Empty(csapiUsers), before);
             FairTrace(limits, s, after) && Waits(s, id) && WaitsThroughout(s, after, id)
    ensures var s := Exec(Empty(csapiUsers), before);
            ClaimCount(after, ExecutorOf(s.runs[id].model)) <= |Ahead(s, id)|
  {
    EmptyReady(limits, csapiUsers);
    ReadyAlways(limits, Empty(csapiUsers), before);
    WaitIsBounded(limits, Exec(Empty(csapiUsers), before), after, id);
  }
}
