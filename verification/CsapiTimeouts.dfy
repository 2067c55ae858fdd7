// The three deadlines of csapi runs: what one sweep leaves behind, which reason it records, and how
// it agrees with the conditional cancelRun that an attached HTTP waiter issues.
module CsapiTimeouts {
  import opened Prelude
  import opened RunTypes
  import opened RunSteps
  import opened RunInvariant

  predicate LiveCsapi(s: Db, id: RunId) {
    id in s.runs && s.runs[id].user in s.csapiUsers && s.runs[id].mode.Plaintext?
    && s.runs[id].deletedAt.None? && Active(s.runs[id].status)
  }

  predicate PastDeadline(r: Run, c: Call, now: Time)
    requires c.Expire?
  {
    QueueExpired(r, c.queueTimeout, now) || IdleExpired(r, c.idleTimeout, now)
    || AbsoluteExpired(r, c.absoluteTimeout, now)
  }

  /** The rows a sweep cancels. */
  function Swept(s: Db, c: Call, now: Time): set<RunId>
    requires c.Expire?
  {
    set id | id in s.runs && SweptBy(s, s.runs[id], c, now)
  }

  function SweptFor(s: Db, c: Call, now: Time, reason: CancelReason): set<RunId>
    requires c.Expire?
  {
    set id | id in Swept(s, c, now) && SweepReason(s.runs[id], c, now) == reason
  }

  /**
   * After a sweep at `now` no live csapi run is past any of its deadlines, and a run survives it
   * live exactly when it was past none.
   */
  lemma SweepLeavesNothingLate(limits: Limits, s: Db, c: Call, now: Time, id: RunId)
    requires c.Expire? && Enabled(limits, s, c, now) && id in s.runs
    ensures var s' := Step(s, c, now);
            && (LiveCsapi(s', id) ==> !PastDeadline(s'.runs[id], c, now))
            && (LiveCsapi(s', id) <==> LiveCsapi(s, id) && !PastDeadline(s.runs[id], c, now))
            && (id !in Swept(s, c, now) ==> s'.runs[id] == s.runs[id])
  {
  }

  // ---------------------------------------------------------------- between two sweeps

  /** What a call does to the three clocks of a row that is not E2EE: each stays or starts again, the start but once. */
  predicate ClocksRestart(r: Run, r': Run, now: Time) {
    && (NotStarted(r'.status) ==> r'.queuedAt == now || (NotStarted(r.status) && r'.queuedAt == r.queuedAt))
    && (r'.status.Running? ==>
          r'.lastActivity == Some(now)
          || (r.status.Running? && r'.lastActivity == r.lastActivity && r'.startedAt == r.startedAt))
    && (r'.startedAt == r.startedAt || (r.startedAt.None? && r'.startedAt == Some(now)))
  }

  lemma RestartTarget(limits: Limits, s: Db, c: Call, now: Time, id: RunId, r: Run)
    requires !r.mode.E2ee? && RowEnabled(limits, s.issued, c, id, r)
    ensures ClocksRestart(r, AfterTarget(s, c, now, r), now)
  {
  }

  lemma RestartSweeping(limits: Limits, s: Db, c: Call, now: Time, id: RunId, r: Run)
    requires !r.mode.E2ee? && RowEnabled(limits, s.issued, c, id, r)
    ensures ClocksRestart(r, AfterSweeping(s, c, now, id, r), now)
  {
  }

  lemma RestartRow(limits: Limits, s: Db, c: Call, now: Time, id: RunId)
    requires id in s.runs && !s.runs[id].mode.E2ee? && Enabled(limits, s, c, now)
    ensures ClocksRestart(s.runs[id], After(s, c, now, id, s.runs[id]), now)
  {
    hide AfterTarget, AfterSweeping, Enabled, RowEnabled;
    EnabledRow(limits, s, c, now, id);
    RestartTarget(limits, s, c, now, id, s.runs[id]);
    RestartSweeping(limits, s, c, now, id, s.runs[id]);
  }

  /** The start that the absolute deadline counts from is the first claim's: no requeue resets it. */
  lemma {:induction false} StartIsForever(limits: Limits, s: Db, trace: seq<Timed>, id: RunId)
    requires limits.maxAttempts > 0 && Legal(limits, s, trace)
    requires id in s.runs && !s.runs[id].mode.E2ee? && s.runs[id].startedAt.Some?
    ensures Exec(s, trace).runs[id].startedAt == s.runs[id].startedAt
    decreases |trace|
  {
    hide After, Enabled;
    if trace != [] {
      var c, now := trace[0].call, trace[0].now;
      if id in Inserted(s, c, now) { InsertedRow(limits, s, c, now, id); }
      RestartRow(limits, s, c, now, id);
      IdentityKept(s, c, now, id, s.runs[id]);
      StartIsForever(limits, Step(s, c, now), trace[1..], id);
    }
  }

  /** A live csapi run was live before the call, unless it was created by it. */
  lemma LiveOrigin(limits: Limits, s: Db, c: Call, now: Time, id: RunId)
    requires Inv(limits, s) && Enabled(limits, s, c, now) && LiveCsapi(Step(s, c, now), id)
    requires id !in Inserted(s, c, now)
    ensures LiveCsapi(s, id) && ClocksRestart(s.runs[id], Step(s, c, now).runs[id], now)
  {
    hide After, Enabled, RowEnabled, Compatible;
    assert RowInv(limits, s.issued, s.runs[id]);
    EnabledRow(limits, s, c, now, id);
    IdentityKept(s, c, now, id, s.runs[id]);
    MovesOfRow(limits, s, c, now, id);
    RestartRow(limits, s, c, now, id);
  }

  lemma MovesOfRow(limits: Limits, s: Db, c: Call, now: Time, id: RunId)
    requires id in s.runs && RowInv(limits, s.issued, s.runs[id])
    requires RowEnabled(limits, s.issued, c, id, s.runs[id])
    ensures Arrow(s.runs[id], After(s, c, now, id, s.runs[id]))
  {
    hide After;
    StatusMoves(s, c, now, id, s.runs[id]);
  }

  /** At time `at` no live csapi run was past a deadline of `sweep`. */
  ghost predicate AllOnTime(s: Db, sweep: Call, at: Time)
    requires sweep.Expire?
  {
    forall id | LiveCsapi(s, id) :: !PastDeadline(s.runs[id], sweep, at)
  }

  lemma StaysOnTime(r: Run, r': Run, sweep: Call, at: Time, now: Time)
    requires sweep.Expire? && sweep.queueTimeout > 0 && sweep.idleTimeout > 0 && sweep.absoluteTimeout > 0
    requires Active(r.status) && !PastDeadline(r, sweep, at) && at <= now && ClocksRestart(r, r', now)
    ensures !PastDeadline(r', sweep, at)
  {
  }

  lemma OnTimeKept(limits: Limits, s: Db, c: Call, now: Time, sweep: Call, at: Time)
    requires Inv(limits, s) && limits.maxAttempts > 0 && Enabled(limits, s, c, now)
    requires sweep.Expire? && sweep.queueTimeout > 0 && sweep.idleTimeout > 0 && sweep.absoluteTimeout > 0
    requires AllOnTime(s, sweep, at) && at <= now
    ensures AllOnTime(Step(s, c, now), sweep, at)
  {
    hide Step, Inv, Enabled, PastDeadline;
    forall id | LiveCsapi(Step(s, c, now), id) ensures !PastDeadline(Step(s, c, now).runs[id], sweep, at) {
      if id in Inserted(s, c, now) {
        InsertedOnTime(limits, s, c, now, sweep, at, id);
      } else {
        LiveOrigin(limits, s, c, now, id);
        StaysOnTime(s.runs[id], Step(s, c, now).runs[id], sweep, at, now);
      }
    }
  }

  lemma InsertedOnTime(limits: Limits, s: Db, c: Call, now: Time, sweep: Call, at: Time, id: RunId)
    requires Enabled(limits, s, c, now) && id in Inserted(s, c, now) && at <= now
    requires sweep.Expire? && sweep.queueTimeout > 0
    ensures !PastDeadline(Step(s, c, now).runs[id], sweep, at)
  {
  }

  lemma {:induction false} OnTimeThroughout(limits: Limits, s: Db, trace: seq<Timed>, sweep: Call, at: Time)
    requires Inv(limits, s) && limits.maxAttempts > 0 && Legal(limits, s, trace)
    requires sweep.Expire? && sweep.queueTimeout > 0 && sweep.idleTimeout > 0 && sweep.absoluteTimeout > 0
    requires AllOnTime(s, sweep, at) && at <= s.clock
    ensures AllOnTime(Exec(s, trace), sweep, at)
    decreases |trace|
  {
    hide AllOnTime, Inv, RunsAfter;
    if trace != [] {
      InvKept(limits, s, trace[0].call, trace[0].now);
      OnTimeKept(limits, s, trace[0].call, trace[0].now, sweep, at);
      OnTimeThroughout(limits, Step(s, trace[0].call, trace[0].now), trace[1..], sweep, at);
    }
  }

  /**
   * With a sweep at least every `gap`, no csapi run stays live `gap` or more beyond any of its
   * deadlines, whatever claims, requeues, approvals and activity happen in between.
   */
  lemma LateByLessThanTheGap(limits: Limits, csapiUsers: set<UserId>, before: seq<Timed>, sweep: Timed,
                             since: seq<Timed>, gap: nat, now: Time, id: RunId)
    requires limits.maxAttempts > 0 && Legal(limits, Empty(csapiUsers), before)
    requires var c := sweep.call; c.Expire? && c.queueTimeout > 0 && c.idleTimeout > 0 && c.absoluteTimeout > 0
    requires Enabled(limits, Exec(Empty(csapiUsers), before), sweep.call, sweep.now)
    requires Legal(limits, Step(Exec(Empty(csapiUsers), before), sweep.call, sweep.now), since)
    requires now <= sweep.now + gap
    requires LiveCsapi(Exec(Step(Exec(Empty(csapiUsers), before), sweep.call, sweep.now), since), id)
    ensures var r := Exec(Step(Exec(Empty(csapiUsers), before), sweep.call, sweep.now), since).runs[id];
            && (NotStarted(r.status) ==> now - r.queuedAt < sweep.call.queueTimeout + gap)
            && (r.startedAt.Some? ==> now - r.startedAt.value < sweep.call.absoluteTimeout + gap)
            && (r.status.Running? ==> r.lastActivity.Some?
                                      && now - r.lastActivity.value < sweep.call.idleTimeout + gap)
  {
    hide Step, Inv, Enabled;
    var s := Exec(Empty(csapiUsers), before);
    EmptyInv(limits, csapiUsers);
    InvAlways(limits, Empty(csapiUsers), before);
    InvKept(limits, s, sweep.call, sweep.now);
    SweptClean(limits, s, sweep.call, sweep.now);
    var s1 := Step(s, sweep.call, sweep.now);
    OnTimeThroughout(limits, s1, since, sweep.call, sweep.now);
    InvAlways(limits, s1, since);
    if Exec(s1, since).runs[id].status.Running? { RunningHasActivity(limits, Exec(s1, since), id); }
  }

  lemma SweptClean(limits: Limits, s: Db, c: Call, now: Time)
    requires c.Expire? && Enabled(limits, s, c, now)
    ensures AllOnTime(Step(s, c, now), c, now) && Step(s, c, now).clock == now
  {
    hide PastDeadline, Enabled;
    forall id | LiveCsapi(Step(s, c, now), id) ensures !PastDeadline(Step(s, c, now).runs[id], c, now) {
      SweepLeavesNothingLate(limits, s, c, now, id);
    }
  }

  lemma RunningHasActivity(limits: Limits, s: Db, id: RunId)
    requires Inv(limits, s) && LiveCsapi(s, id) && s.runs[id].status.Running?
    ensures s.runs[id].lastActivity.Some?
  {
  }

  /** The recorded reason is a deadline the run passed, and no deadline of higher precedence was passed. */
  lemma ReasonIsHighestPassed(limits: Limits, s: Db, c: Call, now: Time, id: RunId)
    requires c.Expire? && Enabled(limits, s, c, now) && id in Swept(s, c, now)
    ensures var r, r' := s.runs[id], Step(s, c, now).runs[id];
            && r'.status == Cancelled && r'.lease == None && r'.claimedBy == None
            && match r'.cancelReason
               case Some(AbsoluteTimeout) => AbsoluteExpired(r, c.absoluteTimeout, now)
               case Some(IdleTimeout) =>
                 IdleExpired(r, c.idleTimeout, now) && !AbsoluteExpired(r, c.absoluteTimeout, now)
               case Some(QueueTimeout) =>
                 QueueExpired(r, c.queueTimeout, now) && !AbsoluteExpired(r, c.absoluteTimeout, now)
                 && !IdleExpired(r, c.idleTimeout, now)
               case _ => false
  {
  }

  /** The three reported counts account for every cancelled run once. */
  lemma CountsAddUp(s: Db, c: Call, now: Time)
    requires c.Expire?
    ensures |SweptFor(s, c, now, QueueTimeout)| + |SweptFor(s, c, now, IdleTimeout)|
            + |SweptFor(s, c, now, AbsoluteTimeout)| == |Swept(s, c, now)|
  {
    var q, i, a := SweptFor(s, c, now, QueueTimeout), SweptFor(s, c, now, IdleTimeout),
                   SweptFor(s, c, now, AbsoluteTimeout);
    assert q !! i && q !! a && i !! a;
    assert Swept(s, c, now) == q + i + a;
  }

  /** The same limit for the same deadline, as the waiter and the sweep are configured. */
  function LimitFor(c: Call, reason: CancelReason): int
    requires c.Expire? && IsTimeout(reason)
  {
    match reason
    case QueueTimeout => c.queueTimeout
    case IdleTimeout => c.idleTimeout
    case AbsoluteTimeout => c.absoluteTimeout
  }

  /** A timeout cancelRun succeeds on a csapi run only if the sweep with the same limits would cancel it. */
  lemma CancelOnlyIfSwept(limits: Limits, s: Db, c: Call, now: Time, id: RunId, user: UserId, reason: CancelReason)
    requires c.Expire? && id in s.runs && RowInv(limits, s.issued, s.runs[id])
    requires s.runs[id].user in s.csapiUsers && IsTimeout(reason) && LimitFor(c, reason) > 0
    requires Cancellable(s.runs[id], user, reason, Some(LimitFor(c, reason)), now)
    ensures id in Swept(s, c, now)
  {
  }

  /** Conversely, whatever the sweep cancels, the owner's cancelRun with the sweep's reason would cancel identically. */
  lemma SweptIsCancellable(limits: Limits, s: Db, c: Call, now: Time, id: RunId)
    requires c.Expire? && c.queueTimeout > 0 && c.idleTimeout > 0 && c.absoluteTimeout > 0
    requires id in Swept(s, c, now) && RowInv(limits, s.issued, s.runs[id])
    ensures var r := s.runs[id];
            var reason := SweepReason(r, c, now);
            && Cancellable(r, r.user, reason, Some(LimitFor(c, reason)), now)
            && After(s, Cancel(id, r.user, reason, Some(LimitFor(c, reason))), now, id, r) == After(s, c, now, id, r)
  {
  }

  /**
   * In every reachable database the sweep cancels a csapi run iff some timeout cancelRun of its
   * owner, under the same limits, would.
   */
  lemma CancelAgreesWithSweep(limits: Limits, csapiUsers: set<UserId>, trace: seq<Timed>, c: Call, now: Time, id: RunId)
    requires limits.maxAttempts > 0 && Legal(limits, Empty(csapiUsers), trace)
    requires c.Expire? && c.queueTimeout > 0 && c.idleTimeout > 0 && c.absoluteTimeout > 0
    requires id in Exec(Empty(csapiUsers), trace).runs
    requires Exec(Empty(csapiUsers), trace).runs[id].user in Exec(Empty(csapiUsers), trace).csapiUsers
    ensures var s := Exec(Empty(csapiUsers), trace);
            id in Swept(s, c, now) <==>
            exists reason | IsTimeout(reason) ::
              Cancellable(s.runs[id], s.runs[id].user, reason, Some(LimitFor(c, reason)), now)
  {
    var s := Exec(Empty(csapiUsers), trace);
    EmptyInv(limits, csapiUsers);
    InvAlways(limits, Empty(csapiUsers), trace);
    if id in Swept(s, c, now) {
      SweptIsCancellable(limits, s, c, now, id);
    }
    if reason :| IsTimeout(reason)
                 && Cancellable(s.runs[id], s.runs[id].user, reason, Some(LimitFor(c, reason)), now) {
      CancelOnlyIfSwept(limits, s, c, now, id, s.runs[id].user, reason);
    }
  }
}
