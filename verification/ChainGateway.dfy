// The gateway that the tabs of ChainTabs talk to is the run queue of RunSteps, seen through one conversation.
module ChainGateway {
  import opened Prelude
  import opened RunTypes
  import opened RunSteps
  import opened RunInvariant
  import Chain = ConversationChain
  import Tabs = ChainTabs

  /** A request as the chain sees it: the columns it names, and everything else packed into the body. */
  type View = E2eeRequest -> Chain.Unsigned

  ghost predicate Faithful(view: View) {
    && (forall q :: view(q).runId == q.runId && view(q).conversation == q.conversation
                    && view(q).sequence == q.sequence && view(q).previousDigest == q.previousDigest)
    && (forall q, p :: view(q) == view(p) ==> q == p)
  }

  predicate Carries(s: Db, c: ConversationId, id: RunId) {
    id in s.runs && s.runs[id].mode.E2ee? && s.runs[id].conversation == c && s.runs[id].request.Some?
  }

  /** `stored` lists exactly the requests of the E2EE runs in conversation `c`. */
  ghost predicate Lists(s: Db, c: ConversationId, view: View, stored: seq<Chain.Unsigned>) {
    && (forall id | Carries(s, c, id) ::
          && c in s.conversations && s.runs[id].user == s.conversations[c].user
          && s.runs[id].request.value.runId == id && view(s.runs[id].request.value) in stored)
    && (forall x | x in stored :: exists id :: Carries(s, c, id) && x == view(s.runs[id].request.value))
  }

  /** A well-formed request of the conversation's own user, in the context the conversation was opened with. */
  predicate InContext(s: Db, user: UserId, q: E2eeRequest) {
    && q.runId == q.messageId && q.model != "" && q.workspace != ""
    && (q.conversation in s.conversations ==>
          var k := s.conversations[q.conversation];
          k.user == user && k.mode.E2ee? && k.workspace == q.workspace
          && k.target == Some(q.runner) && k.runnerKey == Some(q.runnerKey))
  }

  /** The run id is already taken outside the conversation. */
  predicate TakenElsewhere(s: Db, q: E2eeRequest) {
    q.runId in s.runs && !Carries(s, q.conversation, q.runId)
  }

  function Seen(outcome: CreateOutcome): Tabs.PostOutcome {
    match outcome
    case Created => Tabs.Created
    case Existing => Tabs.Existing
    case Conflict(_) => Tabs.Refused
  }

  lemma SameId(s: Db, view: View, stored: seq<Chain.Unsigned>, q: E2eeRequest)
    requires Faithful(view) && Lists(s, q.conversation, view, stored)
    ensures Carries(s, q.conversation, q.runId) <==> exists k | 0 <= k < |stored| :: stored[k].runId == q.runId
    ensures view(q) in stored <==>
            Carries(s, q.conversation, q.runId) && s.runs[q.runId].request == Some(q)
  {
    if Carries(s, q.conversation, q.runId) {
      var x := view(s.runs[q.runId].request.value);
      var k :| 0 <= k < |stored| && stored[k] == x;
    }
    if k :| 0 <= k < |stored| && stored[k].runId == q.runId {
      assert stored[k] in stored;
    }
  }

  lemma SameSequence(s: Db, view: View, stored: seq<Chain.Unsigned>, q: E2eeRequest)
    requires Faithful(view) && Lists(s, q.conversation, view, stored)
    ensures SequenceTaken(s, q.conversation, q.sequence) <==>
            exists k | 0 <= k < |stored| :: stored[k].sequence == q.sequence
  {
    if SequenceTaken(s, q.conversation, q.sequence) {
      var j :| j in s.runs && s.runs[j].mode.E2ee? && s.runs[j].request.Some?
               && s.runs[j].conversation == q.conversation && s.runs[j].request.value.sequence == q.sequence;
      assert Carries(s, q.conversation, j);
      var k :| 0 <= k < |stored| && stored[k] == view(s.runs[j].request.value);
    }
    if k :| 0 <= k < |stored| && stored[k].sequence == q.sequence {
      assert stored[k] in stored;
      var j :| Carries(s, q.conversation, j) && stored[k] == view(s.runs[j].request.value);
    }
  }

  /**
   * The run queue answers a create in context as the chain model answers the post, except that it also
   * refuses an id in use outside the conversation.
   */
  lemma PostIsCreate(limits: Limits, s: Db, user: UserId, view: View, stored: seq<Chain.Unsigned>, q: E2eeRequest)
    requires Inv(limits, s) && Faithful(view) && Lists(s, q.conversation, view, stored) && InContext(s, user, q)
    ensures Seen(CreateE2eeOutcome(s, user, q))
            == if TakenElsewhere(s, q) then Tabs.Refused else Tabs.PostResult(stored, view(q))
  {
    hide Lists, SequenceTaken, Compatible;
    SameId(s, view, stored, q);
    SameSequence(s, view, stored, q);
    if TakenElsewhere(s, q) {
      assert RowInv(limits, s.issued, s.runs[q.runId]);
    } else if Carries(s, q.conversation, q.runId) {
      OwnerOf(s, view, stored, q.conversation, q.runId);
      assert Tabs.PostResult(stored, view(q)) == if view(q) in stored then Tabs.Existing else Tabs.Refused;
    } else {
      assert Tabs.PostResult(stored, view(q))
          == if SequenceTaken(s, q.conversation, q.sequence) then Tabs.Refused else Tabs.Created;
    }
  }

  lemma OwnerOf(s: Db, view: View, stored: seq<Chain.Unsigned>, c: ConversationId, id: RunId)
    requires Lists(s, c, view, stored) && Carries(s, c, id)
    ensures c in s.conversations && s.runs[id].user == s.conversations[c].user
  {
  }

  // ---------------------------------------------------------------- any traffic

  /** What the call adds to conversation `c`. */
  function Adds(s: Db, call: Call, c: ConversationId, view: View): seq<Chain.Unsigned> {
    if call.CreateE2ee? && call.request.conversation == c && CreateE2eeOutcome(s, call.user, call.request).Created?
    then [view(call.request)] else []
  }

  function Mirror(s: Db, trace: seq<Timed>, c: ConversationId, view: View): seq<Chain.Unsigned>
    decreases |trace|
  {
    if trace == [] then []
    else Adds(s, trace[0].call, c, view) + Mirror(Step(s, trace[0].call, trace[0].now), trace[1..], c, view)
  }

  lemma ConversationKept(limits: Limits, s: Db, call: Call, now: Time, c: ConversationId)
    requires Enabled(limits, s, call, now) && c in s.conversations
    ensures c in Step(s, call, now).conversations
    ensures Step(s, call, now).conversations[c].user == s.conversations[c].user
  {
    hide RunsAfter;
  }

  lemma CarriesKept(limits: Limits, s: Db, call: Call, now: Time, c: ConversationId, id: RunId)
    requires limits.maxAttempts > 0 && Enabled(limits, s, call, now) && id in s.runs
    ensures Carries(Step(s, call, now), c, id) <==> Carries(s, c, id)
    ensures Step(s, call, now).runs[id].request == s.runs[id].request
    ensures Step(s, call, now).runs[id].user == s.runs[id].user
  {
    hide After, Enabled;
    if id in Inserted(s, call, now) { InsertedRow(limits, s, call, now, id); }
    IdentityKept(s, call, now, id, s.runs[id]);
  }

  lemma NewCarrier(s: Db, call: Call, now: Time, c: ConversationId, view: View, id: RunId)
    requires id in Inserted(s, call, now) && Carries(Step(s, call, now), c, id)
    ensures call.CreateE2ee? && CreateE2eeOutcome(s, call.user, call.request).Created?
    ensures var r := Step(s, call, now).runs[id];
            && r.user == call.user && r.request == Some(call.request) && call.request.runId == id
            && call.request.conversation == c && Adds(s, call, c, view) == [view(call.request)]
  {
  }

  lemma CreatedConversation(s: Db, call: Call, now: Time)
    requires call.CreateE2ee? && CreateE2eeOutcome(s, call.user, call.request).Created?
    ensures var q, s' := call.request, Step(s, call, now);
            && q.conversation in s'.conversations && s'.conversations[q.conversation].user == call.user
            && Carries(s', q.conversation, q.runId) && s'.runs[q.runId].request == Some(q)
  {
  }

  /** Whatever the call, the list stays exact with what the call added. */
  lemma ListsKept(limits: Limits, s: Db, call: Call, now: Time, c: ConversationId, view: View,
                  stored: seq<Chain.Unsigned>)
    requires limits.maxAttempts > 0 && Enabled(limits, s, call, now) && Lists(s, c, view, stored)
    ensures Lists(Step(s, call, now), c, view, stored + Adds(s, call, c, view))
  {
    hide Enabled, Step, Adds;
    var s', stored' := Step(s, call, now), stored + Adds(s, call, c, view);
    forall id | Carries(s', c, id)
      ensures c in s'.conversations && s'.runs[id].user == s'.conversations[c].user
      ensures s'.runs[id].request.value.runId == id && view(s'.runs[id].request.value) in stored'
    {
      Origin(s, call, now, id);
      if id in Inserted(s, call, now) {
        NewCarrier(s, call, now, c, view, id);
        CreatedConversation(s, call, now);
      } else {
        CarriesKept(limits, s, call, now, c, id);
        ConversationKept(limits, s, call, now, c);
      }
    }
    forall x | x in stored' ensures exists id :: Carries(s', c, id) && x == view(s'.runs[id].request.value) {
      if x in stored {
        var id :| Carries(s, c, id) && x == view(s.runs[id].request.value);
        CarriesKept(limits, s, call, now, c, id);
        assert Carries(s', c, id);
      } else {
        AddedIs(s, call, c, view, x);
        CreatedConversation(s, call, now);
        assert Carries(s', c, call.request.runId);
      }
    }
  }

  lemma Origin(s: Db, call: Call, now: Time, id: RunId)
    requires id in Step(s, call, now).runs
    ensures id in s.runs || id in Inserted(s, call, now)
  {
  }

  lemma AddedIs(s: Db, call: Call, c: ConversationId, view: View, x: Chain.Unsigned)
    requires x in Adds(s, call, c, view)
    ensures call.CreateE2ee? && CreateE2eeOutcome(s, call.user, call.request).Created?
    ensures call.request.conversation == c && x == view(call.request)
  {
  }

  /**
   * Through any legal traffic of the whole run queue, the requests of a conversation are those that
   * were created in it, in creation order; and every post in the conversation's context is answered
   * from that list as the chain model answers it.
   */
  lemma {:induction false} MirrorIsExact(limits: Limits, s: Db, trace: seq<Timed>, c: ConversationId, view: View,
                                         stored: seq<Chain.Unsigned>)
    requires limits.maxAttempts > 0 && Legal(limits, s, trace) && Lists(s, c, view, stored)
    ensures Lists(Exec(s, trace), c, view, stored + Mirror(s, trace, c, view))
    decreases |trace|
  {
    hide Lists, Step, Enabled, Adds;
    if trace == [] {
      assert stored + [] == stored;
    } else {
      var call, now := trace[0].call, trace[0].now;
      var added := Adds(s, call, c, view);
      ListsKept(limits, s, call, now, c, view, stored);
      MirrorIsExact(limits, Step(s, call, now), trace[1..], c, view, stored + added);
      var rest := Mirror(Step(s, call, now), trace[1..], c, view);
      assert stored + (added + rest) == stored + added + rest;
    }
  }

  lemma NothingListed(csapiUsers: set<UserId>, c: ConversationId, view: View)
    ensures Lists(Empty(csapiUsers), c, view, [])
  {
  }

  /** From an empty database on: the gateway of ChainTabs is this queue. */
  lemma GatewayIsQueue(limits: Limits, csapiUsers: set<UserId>, trace: seq<Timed>, view: View, user: UserId,
                       q: E2eeRequest)
    requires limits.maxAttempts > 0 && Legal(limits, Empty(csapiUsers), trace) && Faithful(view)
    requires InContext(Exec(Empty(csapiUsers), trace), user, q)
    ensures var s := Exec(Empty(csapiUsers), trace);
            var stored := Mirror(Empty(csapiUsers), trace, q.conversation, view);
            && Seen(CreateE2eeOutcome(s, user, q))
               == (if TakenElsewhere(s, q) then Tabs.Refused else Tabs.PostResult(stored, view(q)))
            && (!TakenElsewhere(s, q) ==>
                  stored + Adds(s, CreateE2ee(user, q), q.conversation, view) == Tabs.Posted(stored, view(q)))
  {
    hide Lists, Inv, Step, Legal, CreateE2eeOutcome, InContext, TakenElsewhere, Tabs.PostResult;
    var s := Exec(Empty(csapiUsers), trace);
    var stored := Mirror(Empty(csapiUsers), trace, q.conversation, view);
    NothingListed(csapiUsers, q.conversation, view);
    MirrorIsExact(limits, Empty(csapiUsers), trace, q.conversation, view, []);
    assert [] + stored == stored;
    EmptyInv(limits, csapiUsers);
    InvAlways(limits, Empty(csapiUsers), trace);
    PostIsCreate(limits, s, user, view, stored, q);
    assert stored + [] == stored;
  }
}
