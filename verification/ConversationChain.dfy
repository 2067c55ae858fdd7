// The hash chain of an E2EE conversation: what `runs` checks, and what a chain tip pins down.
module ConversationChain {
  import opened Prelude

  type Digest = string
  type ConversationId = nat

  /** A run request without its signature: the part that is digested. */
  datatype Unsigned = Unsigned(
    runId: nat, conversation: ConversationId, sequence: nat, previousDigest: Option<Digest>, body: string)

  /** A gateway record: the row's own conversation id beside the request it carries. */
  datatype Record = Record(conversation: ConversationId, request: Unsigned)

  type Hash = Unsigned -> Digest

  // ---------------------------------------------------------------- sorting by sequence

  function InsertBySequence(r: Record, rs: seq<Record>): seq<Record> {
    if rs == [] || r.request.sequence < rs[0].request.sequence then [r] + rs
    else [rs[0]] + InsertBySequence(r, rs[1..])
  }

  /** The client's stable sort: equal sequences keep the order the gateway listed them in. */
  function SortBySequence(rs: seq<Record>): seq<Record> {
    if rs == [] then []
    else InsertBySequence(rs[|rs| - 1], SortBySequence(rs[..|rs| - 1]))
  }

  ghost predicate Ascending(rs: seq<Record>) {
    forall i, j | 0 <= i < j < |rs| :: rs[i].request.sequence <= rs[j].request.sequence
  }

  lemma ConsAscends(first: Record, rest: seq<Record>)
    requires Ascending(rest) && forall x | x in rest :: first.request.sequence <= x.request.sequence
    ensures Ascending([first] + rest)
  {
  }

  lemma {:induction false} InsertSorts(r: Record, rs: seq<Record>)
    requires Ascending(rs)
    ensures Ascending(InsertBySequence(r, rs))
    ensures multiset(InsertBySequence(r, rs)) == multiset(rs) + multiset{r}
  {
    if rs == [] || r.request.sequence < rs[0].request.sequence {
    } else {
      assert rs == [rs[0]] + rs[1..];
      InsertSorts(r, rs[1..]);
      var tail := InsertBySequence(r, rs[1..]);
      forall x | x in tail ensures rs[0].request.sequence <= x.request.sequence {
        assert x in multiset(tail);
        assert x in rs[1..] || x == r;
      }
      ConsAscends(rs[0], tail);
    }
  }

  lemma {:induction false} SortSorts(rs: seq<Record>)
    ensures Ascending(SortBySequence(rs))
    ensures multiset(SortBySequence(rs)) == multiset(rs)
  {
    if rs != [] {
      SortSorts(rs[..|rs| - 1]);
      InsertSorts(rs[|rs| - 1], SortBySequence(rs[..|rs| - 1]));
      assert rs == rs[..|rs| - 1] + [rs[|rs| - 1]];
    }
  }

  ghost predicate StrictlyAscending(rs: seq<Record>) {
    forall i, j | 0 <= i < j < |rs| :: rs[i].request.sequence < rs[j].request.sequence
  }

  lemma SameFirst(a: seq<Record>, b: seq<Record>)
    requires multiset(a) == multiset(b) && Ascending(a) && StrictlyAscending(b) && b != []
    ensures a != [] && a[0] == b[0]
  {
    assert |multiset(a)| == |multiset(b)|;
    assert a[0] in multiset(b) && b[0] in multiset(a);
    var i :| 0 <= i < |b| && b[i] == a[0];
    var j :| 0 <= j < |a| && a[j] == b[0];
  }

  /** A strictly ascending arrangement of given records is the only ascending one. */
  lemma {:induction false} SortedUnique(a: seq<Record>, b: seq<Record>)
    requires multiset(a) == multiset(b) && Ascending(a) && StrictlyAscending(b)
    ensures a == b
  {
    if b == [] {
      assert |multiset(a)| == 0;
    } else {
      SameFirst(a, b);
      assert a == [a[0]] + a[1..] && b == [b[0]] + b[1..];
      assert multiset(a[1..]) == multiset(a) - multiset{a[0]};
      assert multiset(b[1..]) == multiset(b) - multiset{b[0]};
      SortedUnique(a[1..], b[1..]);
    }
  }

  // ---------------------------------------------------------------- the chain check

  /** The digest the entry after the first `n` entries must carry. */
  function TipOf(hash: Hash, rs: seq<Record>, n: nat): Option<Digest>
    requires n <= |rs|
  {
    if n == 0 then None else Some(hash(rs[n - 1].request))
  }

  ghost predicate LinkAt(hash: Hash, conversation: ConversationId, rs: seq<Record>, k: nat)
    requires k < |rs|
  {
    rs[k].conversation == conversation && rs[k].request.conversation == conversation
    && rs[k].request.sequence == k + 1 && rs[k].request.previousDigest == TipOf(hash, rs, k)
  }

  ghost predicate ValidChain(hash: Hash, conversation: ConversationId, rs: seq<Record>) {
    forall k: nat | k < |rs| :: LinkAt(hash, conversation, rs, k)
  }

  /** The loop of `runs`: None is the thrown conversation_chain_invalid, otherwise the tip digest. */
  method CheckChain(hash: Hash, conversation: ConversationId, records: seq<Record>)
    returns (tip: Option<Option<Digest>>)
    ensures tip.Some? <==> ValidChain(hash, conversation, SortBySequence(records))
    ensures tip.Some? ==> tip.value == TipOf(hash, SortBySequence(records), |SortBySequence(records)|)
  {
    var ordered := SortBySequence(records);
    var previousDigest: Option<Digest> := None;
    for index := 0 to |ordered|
      invariant previousDigest == TipOf(hash, ordered, index)
      invariant forall k: nat | k < index :: LinkAt(hash, conversation, ordered, k)
    {
      var record := ordered[index];
      if record.conversation != conversation || record.request.conversation != conversation
         || record.request.sequence != index + 1 || record.request.previousDigest != previousDigest {
        assert !LinkAt(hash, conversation, ordered, index);
        return None;
      }
      previousDigest := Some(hash(record.request));
    }
    tip := Some(previousDigest);
  }

  /** A valid chain passes the check in whatever order the gateway lists it. */
  lemma AnyOrderPasses(hash: Hash, conversation: ConversationId, chain: seq<Record>, listed: seq<Record>)
    requires ValidChain(hash, conversation, chain) && multiset(listed) == multiset(chain)
    ensures SortBySequence(listed) == chain
  {
    SortSorts(listed);
    forall k: nat | k < |chain| ensures chain[k].request.sequence == k + 1 {
      assert LinkAt(hash, conversation, chain, k);
    }
    SortedUnique(SortBySequence(listed), chain);
  }

  // ---------------------------------------------------------------- chain binding

  ghost predicate CollisionFree(hash: Hash) {
    forall a, b :: hash(a) == hash(b) ==> a == b
  }

  lemma {:induction false} PrefixBound(hash: Hash, conversation: ConversationId,
                                       a: seq<Record>, b: seq<Record>, n: nat)
    requires CollisionFree(hash) && ValidChain(hash, conversation, a) && ValidChain(hash, conversation, b)
    requires n <= |a| && n <= |b| && TipOf(hash, a, n) == TipOf(hash, b, n)
    ensures a[..n] == b[..n]
  {
    if n > 0 {
      assert LinkAt(hash, conversation, a, n - 1) && LinkAt(hash, conversation, b, n - 1);
      assert a[n - 1] == b[n - 1];
      PrefixBound(hash, conversation, a, b, n - 1);
      assert a[..n] == a[..n - 1] + [a[n - 1]] && b[..n] == b[..n - 1] + [b[n - 1]];
    }
  }

  lemma ChainsBound(hash: Hash, conversation: ConversationId, x: seq<Record>, y: seq<Record>)
    requires CollisionFree(hash) && ValidChain(hash, conversation, x) && ValidChain(hash, conversation, y)
    requires TipOf(hash, x, |x|) == TipOf(hash, y, |y|)
    ensures x == y
  {
    if |x| > 0 && |y| > 0 {
      assert LinkAt(hash, conversation, x, |x| - 1) && LinkAt(hash, conversation, y, |y| - 1);
      assert x[|x| - 1].request == y[|y| - 1].request;
    }
    PrefixBound(hash, conversation, x, y, |x|);
    assert x[..|x|] == x && y[..|y|] == y;
  }

  /**
   * The tip digest binds the whole conversation: two lists that pass the check of `runs` and end in
   * the same digest hold the same request at every position, and equally many.
   */
  lemma ChainBinding(hash: Hash, conversation: ConversationId, a: seq<Record>, b: seq<Record>)
    requires CollisionFree(hash)
    requires ValidChain(hash, conversation, SortBySequence(a)) && ValidChain(hash, conversation, SortBySequence(b))
    requires TipOf(hash, SortBySequence(a), |SortBySequence(a)|) == TipOf(hash, SortBySequence(b), |SortBySequence(b)|)
    ensures SortBySequence(a) == SortBySequence(b) && |a| == |b| && multiset(a) == multiset(b)
  {
    ChainsBound(hash, conversation, SortBySequence(a), SortBySequence(b));
    SortSorts(a);
    SortSorts(b);
    assert |multiset(a)| == |a| && |multiset(b)| == |b|;
  }
}
