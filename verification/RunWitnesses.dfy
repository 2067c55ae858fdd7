// Two reachable databases: the exceptions that QueueOrder and LeaseFencing allow for do occur.
module RunWitnesses {
  import opened Prelude
  import opened RunTypes
  import opened RunSteps
  import opened RunUpdates
  import opened QueueOrder
  import opened LeaseFencing

  lemma {:induction false} OneMore(limits: Limits, s: Db, trace: seq<Timed>, t: Timed)
    requires Legal(limits, s, trace) && Enabled(limits, Exec(s, trace), t.call, t.now)
    ensures Legal(limits, s, trace + [t]) && Exec(s, trace + [t]) == Step(Exec(s, trace), t.call, t.now)
    decreases |trace|
  {
    hide Step, Enabled;
    if trace == [] {
      assert [t][1..] == [];
    } else {
      assert (trace + [t])[1..] == trace[1..] + [t];
      OneMore(limits, Step(s, trace[0].call, trace[0].now), trace[1..], t);
    }
  }

  function Room(deletedAt: Option<Time>): Conversation {
    Conversation(0, "", Plaintext, None, None, deletedAt)
  }

  function Asked(c: ConversationId, now: Time): Run {
    FreshRow(c, 0, Plaintext, Queued, "", now)
  }

  lemma OpensRoom(s: Db, id: ConversationId, now: Time)
    ensures Step(s, NewConversation(id, 0, ""), now)
            == s.(conversations := s.conversations[id := Room(None)], clock := now)
  {
    IdleStep(s, NewConversation(id, 0, ""), now);
    assert s.issued + {} == s.issued;
  }

  lemma Asks(s: Db, run: RunId, id: ConversationId, now: Time)
    requires run !in s.runs
    ensures Step(s, Create(run, id, 0, "", Queued, None), now)
            == s.(runs := s.runs[run := Asked(id, now)], clock := now)
  {
    CreateStep(s, Create(run, id, 0, "", Queued, None), now);
  }

  // ---------------------------------------------------------------- a run that overtakes

  /** A conversation is deleted, a run is still created in it, and a second run elsewhere after that. */
  const SHELVING: seq<Timed> :=
    [Timed(NewConversation(0, 0, ""), 1), Timed(NewConversation(1, 0, ""), 2), Timed(DeleteConversation(0, 0), 3),
     Timed(Create(10, 0, 0, "", Queued, None), 4), Timed(Create(11, 1, 0, "", Queued, None), 5)]

  const SHELVED := Db(map[10 := Asked(0, 4), 11 := Asked(1, 5)], map[0 := Room(Some(3)), 1 := Room(None)], {}, {}, 5)

  const UNSHELVE := RestoreConversation(0, 0)

  lemma RoomsOpened(limits: Limits)
    ensures Legal(limits, Empty({}), SHELVING[..3])
    ensures Exec(Empty({}), SHELVING[..3]) == Db(NO_RUNS, map[0 := Room(Some(3)), 1 := Room(None)], {}, {}, 3)
  {
    hide Step;
    var s1 := Db(NO_RUNS, map[0 := Room(None)], {}, {}, 1);
    var s2 := Db(NO_RUNS, map[0 := Room(None), 1 := Room(None)], {}, {}, 2);
    OpensRoom(Empty({}), 0, 1);
    OpensRoom(s1, 1, 2);
    DeleteStep(s2, DeleteConversation(0, 0), 3);
    assert SHELVING[..0] == [];
    assert SHELVING[..1] == SHELVING[..0] + [SHELVING[0]];
    OneMore(limits, Empty({}), SHELVING[..0], SHELVING[0]);
    assert SHELVING[..2] == SHELVING[..1] + [SHELVING[1]];
    OneMore(limits, Empty({}), SHELVING[..1], SHELVING[1]);
    assert SHELVING[..3] == SHELVING[..2] + [SHELVING[2]];
    OneMore(limits, Empty({}), SHELVING[..2], SHELVING[2]);
  }

  lemma ShelvedIsReachable(limits: Limits)
    ensures Legal(limits, Empty({}), SHELVING) && Exec(Empty({}), SHELVING) == SHELVED
  {
    hide Step;
    RoomsOpened(limits);
    var s3 := Exec(Empty({}), SHELVING[..3]);
    var s4 := s3.(runs := map[10 := Asked(0, 4)], clock := 4);
    Asks(s3, 10, 0, 4);
    Asks(s4, 11, 1, 5);
    assert SHELVING[..4] == SHELVING[..3] + [SHELVING[3]];
    OneMore(limits, Empty({}), SHELVING[..3], SHELVING[3]);
    assert SHELVING == SHELVING[..4] + [SHELVING[4]];
    OneMore(limits, Empty({}), SHELVING[..4], SHELVING[4]);
  }

  /** In a reachable database restoring a conversation puts a run ahead of one that was first in line. */
  lemma RestoreCanOvertake(limits: Limits)
    ensures Legal(limits, Empty({}), SHELVING + [Timed(UNSHELVE, 6)])
    ensures var s := Exec(Empty({}), SHELVING);
            && Waits(s, 11) && Ahead(s, 11) == {}
            && Waits(Step(s, UNSHELVE, 6), 11) && Ahead(Step(s, UNSHELVE, 6), 11) == {10}
  {
    hide Step;
    ShelvedIsReachable(limits);
    OneMore(limits, Empty({}), SHELVING, Timed(UNSHELVE, 6));
    RestoreStep(SHELVED, UNSHELVE, 6);
    assert RestoreRows(SHELVED, 0, 6) == SHELVED.runs;
  }

  // ---------------------------------------------------------------- a replay that is answered with nothing

  const ANSWER := Outcome(Finished, Some("answer"), None, None, None)
  const REPORT := Finish(10, "runner", 7, ANSWER)
  const ERASE := Scrub(0, {0})

  function Claiming(limits: Limits): Call {
    Claim(Windows, "runner", limits.maxJobs, Some(10), 7)
  }

  /** A run is created and claimed. */
  function Working(limits: Limits): seq<Timed> {
    [Timed(NewConversation(0, 0, ""), 1), Timed(Create(10, 0, 0, "", Queued, None), 2), Timed(Claiming(limits), 3)]
  }

  const CLAIMED := Db(map[10 := ClaimedRow(Asked(0, 2), "runner", 7, 3)], map[0 := Room(None)], {}, {7}, 3)

  lemma ClaimedIsReachable(limits: Limits)
    requires limits.maxJobs > 0
    ensures Legal(limits, Empty({}), Working(limits)) && Exec(Empty({}), Working(limits)) == CLAIMED
  {
    hide Step;
    var s1 := Db(NO_RUNS, map[0 := Room(None)], {}, {}, 1);
    var s2 := s1.(runs := map[10 := Asked(0, 2)], clock := 2);
    OpensRoom(Empty({}), 0, 1);
    Asks(s1, 10, 0, 2);
    assert Busy(s2) == {};
    assert Claimable(s2, Windows, 10);
    assert PicksFirst(s2, Claiming(limits));
    ClaimStep(s2, Claiming(limits), 3);
    var t := Working(limits);
    assert t[..0] == [];
    assert t[..1] == t[..0] + [t[0]];
    OneMore(limits, Empty({}), t[..0], t[0]);
    assert t[..2] == t[..1] + [t[1]];
    OneMore(limits, Empty({}), t[..1], t[1]);
    assert t == t[..2] + [t[2]];
    OneMore(limits, Empty({}), t[..2], t[2]);
  }

  /** Its accepted result is answered again until its conversation is scrubbed, and then with nothing. */
  lemma ScrubEndsReplay(limits: Limits)
    requires limits.maxJobs > 0
    ensures Legal(limits, Empty({}), Working(limits) + [Timed(REPORT, 4)] + [Timed(ERASE, 5)])
    ensures var s := Exec(Empty({}), Working(limits));
            var finished := Step(s, REPORT, 4);
            && Accepts(s, REPORT, 10)
            && FinishReply(finished, REPORT, 6).Some?
            && FinishReply(Step(finished, ERASE, 5), REPORT, 6).None?
  {
    hide Step;
    ClaimedIsReachable(limits);
    OneMore(limits, Empty({}), Working(limits), Timed(REPORT, 4));
    TargetStep(CLAIMED, REPORT, 4, 10);
    var finished := Step(CLAIMED, REPORT, 4);
    OneMore(limits, Empty({}), Working(limits) + [Timed(REPORT, 4)], Timed(ERASE, 5));
    ScrubStep(finished, ERASE, 5);
  }
}
