// The client and the gateway of one E2EE conversation as objects, when one tab works alone: what a
// whole `runs` and a whole `submitRun` do to the key store and to the stored chain.
module SecureClient {
  import opened Prelude
  import opened ConversationChain
  import opened ChainTabs

  /** The tip that the browser keeps for the conversation. */
  class KeyStore {
    var sequence: nat
    var lastDigest: Option<Digest>

    /** createConversation */
    constructor ()
      ensures sequence == 0 && lastDigest == None
    {
      sequence, lastDigest := 0, None;
    }

    /** False is the thrown conversation_sequence_regression. */
    method AdvanceConversation(sequence: nat, lastDigest: Digest) returns (ok: bool)
      modifies this
      ensures ok <==> sequence >= old(this.sequence)
      ensures ok ==> this.sequence == sequence && this.lastDigest == Some(lastDigest)
      ensures !ok ==> unchanged(this)
    {
      ok := sequence >= this.sequence;
      if ok { this.sequence, this.lastDigest := sequence, Some(lastDigest); }
    }
  }

  class Gateway {
    const conversation: ConversationId
    var stored: seq<Unsigned>

    constructor (conversation: ConversationId)
      ensures this.conversation == conversation && stored == []
    {
      this.conversation, stored := conversation, [];
    }

    method CreateRun(q: Unsigned) returns (outcome: PostOutcome)
      modifies this
      ensures outcome == PostResult(old(stored), q) && stored == Posted(old(stored), q)
    {
      outcome := PostResult(stored, q);
      if outcome.Created? { stored := stored + [q]; }
    }

    /** None is the 404 of a conversation the gateway has never stored; the order is the gateway's own. */
    method ListRuns() returns (records: Option<seq<Record>>)
      ensures records.Some? <==> stored != []
      ensures records.Some? ==> multiset(records.value) == multiset(RecordsOf(conversation, stored))
    {
      records := if stored == [] then None else Some(RecordsOf(conversation, stored));
    }
  }

  class SecureGatewayClient {
    const hash: Hash
    const keys: KeyStore
    const gateway: Gateway

    constructor (hash: Hash, keys: KeyStore, gateway: Gateway)
      ensures this.hash == hash && this.keys == keys && this.gateway == gateway
    {
      this.hash, this.keys, this.gateway := hash, keys, gateway;
    }

    /** The stored runs form a chain and the local tip is the tip of a prefix of it. */
    ghost predicate Consistent()
      reads keys, gateway
    {
      ValidChain(hash, gateway.conversation, RecordsOf(gateway.conversation, gateway.stored))
      && Names(hash, gateway.stored, keys.sequence, keys.lastDigest)
    }

    /** The local tip is the tip of everything stored. */
    ghost predicate Synchronized()
      reads keys, gateway
    {
      keys.sequence == |gateway.stored| && Consistent()
    }

    /** Checks the whole chain, then brings the local tip up to it. */
    method Runs() returns (chain: Option<seq<Record>>)
      requires Consistent()
      modifies keys
      ensures chain == if gateway.stored == [] then None
                       else Some(RecordsOf(gateway.conversation, gateway.stored))
      ensures Synchronized()
    {
      var response := gateway.ListRuns();
      if response.None? { return None; }
      var full := RecordsOf(gateway.conversation, gateway.stored);
      AnyOrderPasses(hash, gateway.conversation, full, response.value);
      var tip := CheckChain(hash, gateway.conversation, response.value);
      var ordered := SortBySequence(response.value);
      var latest := ordered[|ordered| - 1];
      StoredLink(hash, gateway.conversation, gateway.stored, |gateway.stored| - 1);
      if latest.request.sequence >= keys.sequence {
        var ok := keys.AdvanceConversation(latest.request.sequence, tip.value.value);
      }
      chain := Some(ordered);
    }

    /**
     * Submit into an existing conversation; `arrives` and `answered` say whether the post reaches the
     * gateway and its response the client. The run is accepted exactly when the post arrives and the
     * conversation is known; it then extends the chain by itself alone, and in every case, lost
     * messages included, client and gateway are left consistent.
     */
    method SubmitRun(runId: nat, body: string, arrives: bool, answered: bool) returns (run: Option<Unsigned>)
      requires Consistent()
      requires forall k | 0 <= k < |gateway.stored| :: gateway.stored[k].runId != runId
      modifies keys, gateway
      ensures Consistent()
      ensures var n, tip := |old(gateway.stored)|, if old(gateway.stored) == [] then None
                            else Some(hash(old(gateway.stored)[|old(gateway.stored)| - 1]));
              var q := Unsigned(runId, gateway.conversation, n + 1, tip, body);
              && gateway.stored == old(gateway.stored) + (if n > 0 && arrives then [q] else [])
              && run == (if n > 0 && arrives && answered then Some(q) else None)
              && (run.Some? ==> Synchronized())
    {
      run := None;
      var history := Runs();
      if history.None? { return; }
      var q := Build(gateway.conversation, runId, keys.sequence, keys.lastDigest, body);
      if !arrives { return; }
      forall k | 0 <= k < |gateway.stored| ensures gateway.stored[k].sequence != q.sequence {
        StoredLink(hash, gateway.conversation, gateway.stored, k);
      }
      AcceptedExtendsAll(hash, gateway.conversation, gateway.stored, q);
      var outcome := gateway.CreateRun(q);
      if !answered { return; }
      var ok := keys.AdvanceConversation(q.sequence, hash(q));
      run := Some(q);
    }

    /** The first submit of a conversation skips the listing: its tip is the fresh (0, null). */
    method SubmitFirstRun(runId: nat, body: string, arrives: bool, answered: bool) returns (run: Option<Unsigned>)
      requires Consistent() && gateway.stored == [] && keys.sequence == 0
      modifies keys, gateway
      ensures Consistent()
      ensures gateway.stored == if arrives then [Unsigned(runId, gateway.conversation, 1, None, body)] else []
      ensures run.Some? <==> arrives && answered
      ensures run.Some? ==> Synchronized() && gateway.stored == [run.value]
    {
      run := None;
      var q := Build(gateway.conversation, runId, 0, keys.lastDigest, body);
      if !arrives { return; }
      AcceptedExtendsAll(hash, gateway.conversation, gateway.stored, q);
      var outcome := gateway.CreateRun(q);
      assert [q] == [] + [q];
      if !answered { return; }
      var ok := keys.AdvanceConversation(q.sequence, hash(q));
      run := Some(q);
    }
  }
}
