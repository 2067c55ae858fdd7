// What the acts of one tab achieve in ChainTabs: listing the runs brings the tip up to date, and a submit
// straight after it is accepted, whatever was lost before.
module ChainResync {
  import opened Prelude
  import opened ConversationChain
  import opened ChainTabs

  lemma {:induction false} OneMore(hash: Hash, c: ConversationId, w: World, acts: seq<Act>, a: Act)
    requires Possible(hash, c, w, acts) && CanAct(c, Play(hash, c, w, acts), a)
    ensures Possible(hash, c, w, acts + [a])
    ensures Play(hash, c, w, acts + [a]) == Perform(hash, c, Play(hash, c, w, acts), a)
    decreases |acts|
  {
    hide Perform, CanAct;
    if acts == [] {
      assert [a][1..] == [];
      assert Possible(hash, c, Perform(hash, c, w, a), []);
    } else {
      assert (acts + [a])[1..] == acts[1..] + [a];
      OneMore(hash, c, Perform(hash, c, w, acts[0]), acts[1..], a);
    }
  }

  /** The number and digest of the last stored run. */
  function LastOf(hash: Hash, stored: seq<Unsigned>): (nat, Option<Digest>) {
    (|stored|, if stored == [] then None else Some(hash(stored[|stored| - 1])))
  }

  /** The tab has listed exactly the first `n` stored runs. */
  ghost predicate HasListed(c: ConversationId, w: World, t: TabId, n: nat) {
    && TabAt(w, t).Listed? && n <= |w.stored|
    && multiset(TabAt(w, t).records) == multiset(RecordsOf(c, w.stored[..n]))
  }

  /** The check of a listed prefix leads on to its last run, unless the tip is already beyond it. */
  lemma CheckFollows(hash: Hash, c: ConversationId, w: World, t: TabId, n: nat)
    requires ChainInv(hash, c, w) && HasListed(c, w, t, n) && n > 0
    ensures TabAt(Perform(hash, c, w, Check(t)), t)
            == if w.sequence <= n then Comparing(n, hash(w.stored[n - 1]), true) else Synced
  {
    ListedPasses(hash, c, w, TabAt(w, t).records, n);
    var prefix := RecordsOf(c, w.stored[..n]);
    StoredLink(hash, c, w.stored, n - 1);
    assert prefix[n - 1].request == w.stored[n - 1];
    forall k: nat | k < n ensures LinkAtExec(hash, c, prefix, k) {
      assert LinkAt(hash, c, RecordsOf(c, w.stored), k);
    }
  }

  lemma ListsAll(c: ConversationId, w: World, t: TabId, records: seq<Record>, hash: Hash)
    requires CanAct(c, w, List(t, records))
    ensures HasListed(c, Perform(hash, c, w, List(t, records)), t, |w.stored|)
  {
    assert w.stored[..|w.stored|] == w.stored;
  }

  // ---------------------------------------------------------------- one tab alone

  /** `runs`, whatever the tab was doing before. */
  function Listing(t: TabId, records: seq<Record>): seq<Act> {
    [GiveUp(t), List(t, records), Check(t), Compare(t), Write(t)]
  }

  /** What is left of the world after the tab's own acts: only the tip and the tab have changed. */
  predicate AtTip(hash: Hash, w: World, w': World, t: TabId) {
    && (w'.sequence, w'.lastDigest) == LastOf(hash, w.stored)
    && w'.stored == w.stored && w'.posts == w.posts && TabAt(w', t) == Synced
  }

  lemma GivesUp(hash: Hash, c: ConversationId, w: World, t: TabId)
    ensures CanAct(c, w, GiveUp(t))
    ensures var w' := Perform(hash, c, w, GiveUp(t));
            TabAt(w', t) == Idle && w'.stored == w.stored && w'.posts == w.posts
  {
  }

  lemma ListThenCheck(hash: Hash, c: ConversationId, w: World, t: TabId, records: seq<Record>)
    requires ChainInv(hash, c, w) && TabAt(w, t) == Idle
    requires w.stored != [] && multiset(records) == multiset(RecordsOf(c, w.stored))
    ensures CanAct(c, w, List(t, records)) && CanAct(c, Perform(hash, c, w, List(t, records)), Check(t))
    ensures var w' := Perform(hash, c, Perform(hash, c, w, List(t, records)), Check(t));
            && TabAt(w', t) == Comparing(|w.stored|, hash(w.stored[|w.stored| - 1]), true)
            && w'.stored == w.stored && w'.posts == w.posts && w'.sequence <= |w.stored|
  {
    hide ChainInv, Checked, HasListed;
    TipWithin(hash, c, w);
    ActKeeps(hash, c, w, List(t, records));
    ListsAll(c, w, t, records, hash);
    CheckFollows(hash, c, Perform(hash, c, w, List(t, records)), t, |w.stored|);
  }

  lemma CompareThenWrite(hash: Hash, c: ConversationId, w: World, t: TabId, n: nat, digest: Digest)
    requires TabAt(w, t) == Comparing(n, digest, true) && w.sequence <= n
    ensures CanAct(c, w, Compare(t)) && CanAct(c, Perform(hash, c, w, Compare(t)), Write(t))
    ensures var w' := Perform(hash, c, Perform(hash, c, w, Compare(t)), Write(t));
            && w'.sequence == n && w'.lastDigest == Some(digest) && TabAt(w', t) == Synced
            && w'.stored == w.stored && w'.posts == w.posts
  {
  }

  lemma ListingResyncs(hash: Hash, c: ConversationId, w: World, t: TabId, records: seq<Record>)
    requires ChainInv(hash, c, w) && w.stored != [] && multiset(records) == multiset(RecordsOf(c, w.stored))
    ensures Possible(hash, c, w, Listing(t, records))
    ensures AtTip(hash, w, Play(hash, c, w, Listing(t, records)), t)
  {
    hide Possible, Play, ChainInv, Checked, HasListed, Perform, CanAct;
    GivesUp(hash, c, w, t);
    var w1 := Perform(hash, c, w, GiveUp(t));
    ActKeeps(hash, c, w, GiveUp(t));
    ListThenCheck(hash, c, w1, t, records);
    var w2 := Perform(hash, c, w1, List(t, records));
    var w3 := Perform(hash, c, w2, Check(t));
    CompareThenWrite(hash, c, w3, t, |w.stored|, hash(w.stored[|w.stored| - 1]));
    var w4 := Perform(hash, c, w3, Compare(t));
    FiveActs(hash, c, w, GiveUp(t), List(t, records), Check(t), Compare(t), Write(t), w1, w2, w3, w4);
  }

  lemma TipWithin(hash: Hash, c: ConversationId, w: World)
    requires ChainInv(hash, c, w)
    ensures w.sequence <= |w.stored|
  {
  }

  /** Acts that are each possible after those before them. */
  lemma FiveActs(hash: Hash, c: ConversationId, w: World, a1: Act, a2: Act, a3: Act, a4: Act, a5: Act,
                 w1: World, w2: World, w3: World, w4: World)
    requires CanAct(c, w, a1) && w1 == Perform(hash, c, w, a1)
    requires CanAct(c, w1, a2) && w2 == Perform(hash, c, w1, a2)
    requires CanAct(c, w2, a3) && w3 == Perform(hash, c, w2, a3)
    requires CanAct(c, w3, a4) && w4 == Perform(hash, c, w3, a4)
    requires CanAct(c, w4, a5)
    ensures Possible(hash, c, w, [a1, a2, a3, a4, a5])
    ensures Play(hash, c, w, [a1, a2, a3, a4, a5]) == Perform(hash, c, w4, a5)
  {
    hide Perform, CanAct;
    assert [] + [a1] == [a1] && [a1] + [a2] == [a1, a2] && [a1, a2] + [a3] == [a1, a2, a3];
    assert [a1, a2, a3] + [a4] == [a1, a2, a3, a4] && [a1, a2, a3, a4] + [a5] == [a1, a2, a3, a4, a5];
    OneMore(hash, c, w, [], a1);
    OneMore(hash, c, w, [a1], a2);
    OneMore(hash, c, w, [a1, a2], a3);
    OneMore(hash, c, w, [a1, a2, a3], a4);
    OneMore(hash, c, w, [a1, a2, a3, a4], a5);
  }

  predicate Unused(stored: seq<Unsigned>, runId: nat) {
    forall k | 0 <= k < |stored| :: stored[k].runId != runId
  }

  /** A request for a new run that carries the number and digest of the last stored one is accepted. */
  lemma NextIsCreated(hash: Hash, c: ConversationId, stored: seq<Unsigned>, runId: nat, body: string)
    requires ValidChain(hash, c, RecordsOf(c, stored)) && Unused(stored, runId)
    ensures PostResult(stored, Unsigned(runId, c, |stored| + 1, LastOf(hash, stored).1, body)) == Created
  {
    forall k | 0 <= k < |stored| ensures stored[k].sequence != |stored| + 1 {
      StoredLink(hash, c, stored, k);
    }
  }

  /** The post, its arrival, and the tip brought onto it. */
  function Posting(t: TabId, q: Unsigned, body: string): seq<Act> {
    [Submit(t, q.runId, body), Arrive(q), Acknowledge(t), Compare(t), Write(t)]
  }

  /** A submit from a tab that is in step with the gateway is created, numbered next, and leaves it in step. */
  lemma PostingExtends(hash: Hash, c: ConversationId, w: World, t: TabId, runId: nat, body: string)
    requires ChainInv(hash, c, w) && TabAt(w, t) == Synced && (w.sequence, w.lastDigest) == LastOf(hash, w.stored)
    requires Unused(w.stored, runId)
    ensures var q := Unsigned(runId, c, |w.stored| + 1, LastOf(hash, w.stored).1, body);
            && PostResult(w.stored, q) == Created
            && Possible(hash, c, w, Posting(t, q, body))
            && var w' := Play(hash, c, w, Posting(t, q, body));
               && w'.stored == w.stored + [q]
               && (w'.sequence, w'.lastDigest) == LastOf(hash, w'.stored) && TabAt(w', t) == Idle
  {
    hide Possible, Play;
    var q := Unsigned(runId, c, |w.stored| + 1, LastOf(hash, w.stored).1, body);
    NextIsCreated(hash, c, w.stored, runId, body);
    var w1 := Perform(hash, c, w, Submit(t, runId, body));
    var w2 := Perform(hash, c, w1, Arrive(q));
    assert TabAt(w1, t) == Sent(q) && q in w1.posts && w2.stored == w.stored + [q];
    var w3 := Perform(hash, c, w2, Acknowledge(t));
    var w4 := Perform(hash, c, w3, Compare(t));
    assert TabAt(w4, t) == Writing(q.sequence, hash(q), false);
    FiveActs(hash, c, w, Submit(t, runId, body), Arrive(q), Acknowledge(t), Compare(t), Write(t), w1, w2, w3, w4);
  }

  /** The first submit of a new conversation is created as number 1 without a digest, and leaves the tip on it. */
  lemma FirstSubmit(hash: Hash, c: ConversationId, t: TabId, runId: nat, body: string)
    ensures var q := Unsigned(runId, c, 1, None, body);
            var acts := [SubmitFirst(t, runId, body), Arrive(q), Acknowledge(t), Compare(t), Write(t)];
            && Possible(hash, c, Start(), acts)
            && var w := Play(hash, c, Start(), acts);
               w.stored == [q] && w.sequence == 1 && w.lastDigest == Some(hash(q)) && TabAt(w, t) == Idle
  {
    hide Possible, Play;
    var q := Unsigned(runId, c, 1, None, body);
    var w1 := Perform(hash, c, Start(), SubmitFirst(t, runId, body));
    var w2 := Perform(hash, c, w1, Arrive(q));
    assert w2.stored == [] + [q] == [q];
    var w3 := Perform(hash, c, w2, Acknowledge(t));
    var w4 := Perform(hash, c, w3, Compare(t));
    FiveActs(hash, c, Start(), SubmitFirst(t, runId, body), Arrive(q), Acknowledge(t), Compare(t), Write(t),
             w1, w2, w3, w4);
  }

  /**
   * From every world that any interleaving can lead to, lost responses included, once something is stored:
   * a tab that lists the runs alone has the tip of everything stored, and its next submit of a new run is
   * created, as number n + 1 on the digest of the last run.
   */
  lemma AlwaysRecovers(hash: Hash, c: ConversationId, acts: seq<Act>, t: TabId, records: seq<Record>,
                       runId: nat, body: string)
    requires Possible(hash, c, Start(), acts)
    requires var w := Play(hash, c, Start(), acts);
             w.stored != [] && multiset(records) == multiset(RecordsOf(c, w.stored)) && Unused(w.stored, runId)
    ensures var w := Play(hash, c, Start(), acts);
            var q := Unsigned(runId, c, |w.stored| + 1, Some(hash(w.stored[|w.stored| - 1])), body);
            && Possible(hash, c, w, Listing(t, records))
            && var listed := Play(hash, c, w, Listing(t, records));
               && listed.sequence == |w.stored| && listed.lastDigest == q.previousDigest
               && PostResult(listed.stored, q) == Created
               && Possible(hash, c, listed, Posting(t, q, body))
               && var posted := Play(hash, c, listed, Posting(t, q, body));
                  && posted.stored == w.stored + [q]
                  && posted.sequence == |w.stored| + 1 && posted.lastDigest == Some(hash(q))
  {
    hide Possible, Play, ChainInv;
    StartInv(hash, c);
    PlayKeeps(hash, c, Start(), acts);
    var w := Play(hash, c, Start(), acts);
    ListingResyncs(hash, c, w, t, records);
    PlayKeeps(hash, c, w, Listing(t, records));
    PostingExtends(hash, c, Play(hash, c, w, Listing(t, records)), t, runId, body);
  }

  lemma StartInv(hash: Hash, c: ConversationId)
    ensures ChainInv(hash, c, Start())
  {
  }

  // ---------------------------------------------------------------- among other tabs

  predicate ByOthers(acts: seq<Act>, t: TabId) {
    forall a | a in acts :: a.Arrive? || a.tab != t
  }

  lemma {:induction false} OthersLeave(hash: Hash, c: ConversationId, w: World, acts: seq<Act>, t: TabId)
    requires ChainInv(hash, c, w) && Possible(hash, c, w, acts) && ByOthers(acts, t)
    ensures ChainInv(hash, c, Play(hash, c, w, acts)) && w.stored <= Play(hash, c, w, acts).stored
    ensures TabAt(Play(hash, c, w, acts), t) == TabAt(w, t)
    decreases |acts|
  {
    hide ChainInv;
    if acts != [] {
      ActKeeps(hash, c, w, acts[0]);
      OthersLeave(hash, c, Perform(hash, c, w, acts[0]), acts[1..], t);
    }
  }

  lemma ListedStays(c: ConversationId, w: World, w': World, t: TabId, n: nat)
    requires HasListed(c, w, t, n) && w.stored <= w'.stored && TabAt(w', t) == TabAt(w, t)
    ensures HasListed(c, w', t, n) && (n > 0 ==> w'.stored[n - 1] == w.stored[n - 1])
  {
    assert w'.stored[..n] == w.stored[..n];
  }

  /**
   * With anything of other tabs between the tab's four acts: unless it finds the tip already beyond the `n`
   * runs it listed, it comes to write, and its write puts the tip on the n-th of them.
   */
  lemma ResyncsAmongOthers(hash: Hash, c: ConversationId, w: World, t: TabId, records: seq<Record>,
                           first: seq<Act>, second: seq<Act>, third: seq<Act>)
    requires ChainInv(hash, c, w) && CanAct(c, w, List(t, records))
    requires ByOthers(first, t) && ByOthers(second, t) && ByOthers(third, t)
    requires Possible(hash, c, Perform(hash, c, w, List(t, records)), first)
    ensures var n, last := |w.stored|, hash(w.stored[|w.stored| - 1]);
            var a := Play(hash, c, Perform(hash, c, w, List(t, records)), first);
            && CanAct(c, a, Check(t))
            && TabAt(Perform(hash, c, a, Check(t)), t) == (if a.sequence <= n then Comparing(n, last, true) else Synced)
            && (a.sequence <= n && Possible(hash, c, Perform(hash, c, a, Check(t)), second) ==>
                  var b := Play(hash, c, Perform(hash, c, a, Check(t)), second);
                  && CanAct(c, b, Compare(t))
                  && TabAt(Perform(hash, c, b, Compare(t)), t)
                     == (if b.sequence <= n then Writing(n, last, true) else Idle)
                  && (b.sequence <= n && Possible(hash, c, Perform(hash, c, b, Compare(t)), third) ==>
                        var d := Play(hash, c, Perform(hash, c, b, Compare(t)), third);
                        && CanAct(c, d, Write(t))
                        && Perform(hash, c, d, Write(t)).sequence == n
                        && Perform(hash, c, d, Write(t)).lastDigest == Some(last)))
  {
    hide ChainInv, Possible, Play;
    var w1 := Perform(hash, c, w, List(t, records));
    ActKeeps(hash, c, w, List(t, records));
    ListsAll(c, w, t, records, hash);
    OthersLeave(hash, c, w1, first, t);
    var a := Play(hash, c, w1, first);
    ListedStays(c, w1, a, t, |w.stored|);
    CheckFollows(hash, c, a, t, |w.stored|);
    ActKeeps(hash, c, a, Check(t));
    if a.sequence <= |w.stored| && Possible(hash, c, Perform(hash, c, a, Check(t)), second) {
      OthersLeave(hash, c, Perform(hash, c, a, Check(t)), second, t);
      var b := Play(hash, c, Perform(hash, c, a, Check(t)), second);
      ActKeeps(hash, c, b, Compare(t));
      if b.sequence <= |w.stored| && Possible(hash, c, Perform(hash, c, b, Compare(t)), third) {
        OthersLeave(hash, c, Perform(hash, c, b, Compare(t)), third, t);
      }
    }
  }
}
