// One E2EE conversation shared by browser tabs: they share a key store whose reads and writes are
// separate transactions, and talk to a gateway that never looks at a digest, over a link that may
// lose, delay or repeat requests and lose responses.
module ChainTabs {
  import opened Prelude
  import opened ConversationChain

  type TabId = nat

  // ---------------------------------------------------------------- the gateway's side

  datatype PostOutcome = Created | Existing | Refused

  /** createE2eeRun for a known conversation: by run id first, then the unique (conversation, sequence) index. */
  function PostResult(stored: seq<Unsigned>, q: Unsigned): PostOutcome {
    if exists k | 0 <= k < |stored| :: stored[k].runId == q.runId then
      if q in stored then Existing else Refused
    else if exists k | 0 <= k < |stored| :: stored[k].sequence == q.sequence then Refused
    else Created
  }

  function Posted(stored: seq<Unsigned>, q: Unsigned): seq<Unsigned> {
    if PostResult(stored, q).Created? then stored + [q] else stored
  }

  function RecordsOf(conversation: ConversationId, stored: seq<Unsigned>): seq<Record> {
    seq(|stored|, k requires 0 <= k < |stored| => Record(conversation, stored[k]))
  }

  // ---------------------------------------------------------------- tabs

  /** Where a tab is between two of its asynchronous operations. */
  datatype Tab =
    | Idle
    | Listed(records: seq<Record>)                                // the list response has arrived
    | Comparing(sequence: nat, digest: Digest, resume: bool)      // about to re-read the tip and compare
    | Writing(sequence: nat, digest: Digest, resume: bool)        // compared, about to write the tip
    | Synced                                                      // `runs` is done, the tip is re-read next
    | Sent(request: Unsigned)                                     // posted, waiting for the response
    | Broken                                                      // conversation_chain_invalid was thrown

  /** `posts` are the requests on the wire; nothing ever leaves it, so any may arrive late or twice. */
  datatype World = World(
    stored: seq<Unsigned>, posts: set<Unsigned>, sequence: nat, lastDigest: Option<Digest>, tabs: map<TabId, Tab>)

  datatype Act =
    | List(tab: TabId, records: seq<Record>)
    | Check(tab: TabId)
    | Compare(tab: TabId)
    | Write(tab: TabId)
    | SubmitFirst(tab: TabId, runId: nat, body: string)
    | Submit(tab: TabId, runId: nat, body: string)
    | Arrive(request: Unsigned)
    | Acknowledge(tab: TabId)
    | GiveUp(tab: TabId)

  function TabAt(w: World, t: TabId): Tab {
    if t in w.tabs then w.tabs[t] else Idle
  }

  function Build(c: ConversationId, runId: nat, sequence: nat, tip: Option<Digest>, body: string): Unsigned {
    Unsigned(runId, c, sequence + 1, tip, body)
  }

  predicate CanAct(c: ConversationId, w: World, a: Act) {
    match a
    // a conversation without stored runs is unknown to the gateway: the list request is answered 404
    case List(t, records) =>
      TabAt(w, t).Idle? && w.stored != [] && multiset(records) == multiset(RecordsOf(c, w.stored))
    case Check(t) => TabAt(w, t).Listed?
    case Compare(t) => TabAt(w, t).Comparing?
    case Write(t) => TabAt(w, t).Writing?
    case SubmitFirst(t, _, _) => TabAt(w, t).Idle?
    case Submit(t, _, _) => TabAt(w, t).Synced?
    case Arrive(q) => q in w.posts
    case Acknowledge(t) => TabAt(w, t).Sent? && TabAt(w, t).request in w.stored
    case GiveUp(t) => true
  }

  /** `runs` after its list response: check the chain, then maybe advance the local tip. */
  function Checked(hash: Hash, c: ConversationId, w: World, records: seq<Record>): Tab {
    var ordered := SortBySequence(records);
    if !(forall k: nat | k < |ordered| :: LinkAtExec(hash, c, ordered, k)) then Broken
    else if ordered != [] && ordered[|ordered| - 1].request.sequence >= w.sequence
    then Comparing(ordered[|ordered| - 1].request.sequence, hash(ordered[|ordered| - 1].request), true)
    else Synced
  }

  predicate LinkAtExec(hash: Hash, c: ConversationId, rs: seq<Record>, k: nat)
    requires k < |rs|
    ensures LinkAtExec(hash, c, rs, k) == LinkAt(hash, c, rs, k)
  {
    rs[k].conversation == c && rs[k].request.conversation == c
    && rs[k].request.sequence == k + 1 && rs[k].request.previousDigest == TipOf(hash, rs, k)
  }

  function Perform(hash: Hash, c: ConversationId, w: World, a: Act): World
    requires CanAct(c, w, a)
  {
    match a
    case List(t, records) => w.(tabs := w.tabs[t := Listed(records)])
    case Check(t) => w.(tabs := w.tabs[t := Checked(hash, c, w, TabAt(w, t).records)])
    case Compare(t) =>
      var p := TabAt(w, t);
      w.(tabs := w.tabs[t := if p.sequence < w.sequence then Idle else Writing(p.sequence, p.digest, p.resume)])
    case Write(t) =>
      var p := TabAt(w, t);
      w.(sequence := p.sequence, lastDigest := Some(p.digest), tabs := w.tabs[t := if p.resume then Synced else Idle])
    case SubmitFirst(t, runId, body) =>
      var q := Build(c, runId, 0, None, body);
      w.(posts := w.posts + {q}, tabs := w.tabs[t := Sent(q)])
    case Submit(t, runId, body) =>
      var q := Build(c, runId, w.sequence, w.lastDigest, body);
      w.(posts := w.posts + {q}, tabs := w.tabs[t := Sent(q)])
    case Arrive(q) => w.(stored := Posted(w.stored, q))
    case Acknowledge(t) =>
      var q := TabAt(w, t).request;
      w.(tabs := w.tabs[t := Comparing(q.sequence, hash(q), false)])
    case GiveUp(t) => w.(tabs := w.tabs[t := Idle])
  }

  // ---------------------------------------------------------------- the invariant

  /** (sequence, digest) is the tip of a stored prefix. */
  ghost predicate Names(hash: Hash, stored: seq<Unsigned>, sequence: nat, digest: Option<Digest>) {
    sequence <= |stored| && digest == if sequence == 0 then None else Some(hash(stored[sequence - 1]))
  }

  ghost predicate Extends(hash: Hash, c: ConversationId, stored: seq<Unsigned>, q: Unsigned) {
    q.conversation == c && q.sequence > 0 && Names(hash, stored, q.sequence - 1, q.previousDigest)
  }

  ghost predicate TabInv(hash: Hash, c: ConversationId, w: World, p: Tab) {
    match p
    case Listed(records) =>
      exists n: nat | n <= |w.stored| :: multiset(records) == multiset(RecordsOf(c, w.stored[..n]))
    case Comparing(sequence, digest, _) => Names(hash, w.stored, sequence, Some(digest))
    case Writing(sequence, digest, _) => Names(hash, w.stored, sequence, Some(digest))
    case Sent(q) => q in w.posts
    case Broken => false
    case _ => true
  }

  ghost predicate ChainInv(hash: Hash, c: ConversationId, w: World) {
    && ValidChain(hash, c, RecordsOf(c, w.stored))
    && Names(hash, w.stored, w.sequence, w.lastDigest)
    && (forall q | q in w.posts :: Extends(hash, c, w.stored, q))
    && (forall t | t in w.tabs :: TabInv(hash, c, w, w.tabs[t]))
  }

  function Start(): World {
    World([], {}, 0, None, map[])
  }

  lemma StoredLink(hash: Hash, c: ConversationId, stored: seq<Unsigned>, k: nat)
    requires ValidChain(hash, c, RecordsOf(c, stored)) && k < |stored|
    ensures stored[k].sequence == k + 1 && stored[k].conversation == c
    ensures stored[k].previousDigest == if k == 0 then None else Some(hash(stored[k - 1]))
  {
    assert LinkAt(hash, c, RecordsOf(c, stored), k);
  }

  /** The unique index does it all: a request that extends some prefix is accepted only on the whole of it. */
  lemma AcceptedExtendsAll(hash: Hash, c: ConversationId, stored: seq<Unsigned>, q: Unsigned)
    requires ValidChain(hash, c, RecordsOf(c, stored)) && Extends(hash, c, stored, q)
    requires PostResult(stored, q).Created?
    ensures q.sequence == |stored| + 1
    ensures ValidChain(hash, c, RecordsOf(c, stored + [q]))
  {
    if q.sequence <= |stored| {
      StoredLink(hash, c, stored, q.sequence - 1);
    }
    var rs, rs' := RecordsOf(c, stored), RecordsOf(c, stored + [q]);
    forall k: nat | k < |rs'| ensures LinkAt(hash, c, rs', k) {
      if k < |rs| { assert LinkAt(hash, c, rs, k); }
    }
  }

  /** A list response is some stored prefix, so its check succeeds and its tip names that prefix. */
  lemma ListedPasses(hash: Hash, c: ConversationId, w: World, records: seq<Record>, n: nat)
    requires ValidChain(hash, c, RecordsOf(c, w.stored)) && n <= |w.stored|
    requires multiset(records) == multiset(RecordsOf(c, w.stored[..n]))
    ensures SortBySequence(records) == RecordsOf(c, w.stored[..n])
    ensures TabInv(hash, c, w, Checked(hash, c, w, records))
  {
    var prefix := RecordsOf(c, w.stored[..n]);
    forall k: nat | k < |prefix| ensures LinkAt(hash, c, prefix, k) {
      assert LinkAt(hash, c, RecordsOf(c, w.stored), k);
    }
    AnyOrderPasses(hash, c, prefix, records);
    if n > 0 {
      assert LinkAt(hash, c, prefix, n - 1) && prefix[n - 1].request == w.stored[n - 1];
    }
  }

  lemma Grown(hash: Hash, c: ConversationId, w: World, w': World)
    requires ChainInv(hash, c, w) && w.stored <= w'.stored && w.posts <= w'.posts
    ensures Names(hash, w'.stored, w.sequence, w.lastDigest)
    ensures forall q | q in w.posts :: Extends(hash, c, w'.stored, q)
    ensures forall t | t in w.tabs :: TabInv(hash, c, w', w.tabs[t])
  {
    forall t | t in w.tabs ensures TabInv(hash, c, w', w.tabs[t]) {
      assert TabInv(hash, c, w, w.tabs[t]);
      if w.tabs[t].Listed? {
        var n: nat :| n <= |w.stored| && multiset(w.tabs[t].records) == multiset(RecordsOf(c, w.stored[..n]));
        assert w'.stored[..n] == w.stored[..n];
      }
    }
  }

  lemma ActKeeps(hash: Hash, c: ConversationId, w: World, a: Act)
    requires ChainInv(hash, c, w) && CanAct(c, w, a)
    ensures ChainInv(hash, c, Perform(hash, c, w, a))
    ensures w.stored <= Perform(hash, c, w, a).stored
  {
    var w' := Perform(hash, c, w, a);
    Grown(hash, c, w, w');
    match a
    case List(t, records) =>
      assert w.stored[..|w.stored|] == w.stored;
    case Check(t) =>
      assert TabInv(hash, c, w, w.tabs[t]);
      var records := TabAt(w, t).records;
      var n: nat :| n <= |w.stored| && multiset(records) == multiset(RecordsOf(c, w.stored[..n]));
      ListedPasses(hash, c, w, records, n);
    case Compare(t) => assert TabInv(hash, c, w, w.tabs[t]);
    case Write(t) => assert TabInv(hash, c, w, w.tabs[t]);
    case Arrive(q) =>
      if PostResult(w.stored, q).Created? { AcceptedExtendsAll(hash, c, w.stored, q); }
    case Acknowledge(t) =>
      assert TabInv(hash, c, w, w.tabs[t]);
      var q := TabAt(w, t).request;
      var k :| 0 <= k < |w.stored| && w.stored[k] == q;
      StoredLink(hash, c, w.stored, k);
    case _ =>
  }

  // ---------------------------------------------------------------- every interleaving

  predicate Possible(hash: Hash, c: ConversationId, w: World, acts: seq<Act>)
    decreases |acts|
  {
    acts == [] || (CanAct(c, w, acts[0]) && Possible(hash, c, Perform(hash, c, w, acts[0]), acts[1..]))
  }

  function Play(hash: Hash, c: ConversationId, w: World, acts: seq<Act>): World
    requires Possible(hash, c, w, acts)
    decreases |acts|
  {
    if acts == [] then w else Play(hash, c, Perform(hash, c, w, acts[0]), acts[1..])
  }

  lemma {:induction false} PlayKeeps(hash: Hash, c: ConversationId, w: World, acts: seq<Act>)
    requires ChainInv(hash, c, w) && Possible(hash, c, w, acts)
    ensures ChainInv(hash, c, Play(hash, c, w, acts))
    ensures w.stored <= Play(hash, c, w, acts).stored
    decreases |acts|
  {
    if acts != [] {
      ActKeeps(hash, c, w, acts[0]);
      PlayKeeps(hash, c, Perform(hash, c, w, acts[0]), acts[1..]);
    }
  }

  /** The k-th stored run is number k + 1 and carries its predecessor's digest. */
  predicate Linked(hash: Hash, stored: seq<Unsigned>, k: nat)
    requires k < |stored|
  {
    stored[k].sequence == k + 1
    && stored[k].previousDigest == if k == 0 then None else Some(hash(stored[k - 1]))
  }

  lemma InvMeans(hash: Hash, c: ConversationId, w: World, listed: seq<Record>)
    requires ChainInv(hash, c, w) && multiset(listed) == multiset(RecordsOf(c, w.stored))
    ensures forall k: nat | k < |w.stored| :: Linked(hash, w.stored, k)
    ensures ValidChain(hash, c, SortBySequence(listed))
    ensures forall t | t in w.tabs :: !w.tabs[t].Broken?
  {
    forall k: nat | k < |w.stored| ensures Linked(hash, w.stored, k) {
      StoredLink(hash, c, w.stored, k);
    }
    AnyOrderPasses(hash, c, RecordsOf(c, w.stored), listed);
    forall t | t in w.tabs ensures !w.tabs[t].Broken? {
      assert TabInv(hash, c, w, w.tabs[t]);
    }
  }

  /**
   * For any interleaving of tabs, lost and repeated messages and racing tip writes: the stored runs
   * are numbered 1..n in order of acceptance, each carrying its predecessor's digest; the local tip
   * is the tip of a stored prefix; whatever order the gateway lists them in, `runs` accepts the
   * chain; and no tab has ever seen conversation_chain_invalid.
   */
  lemma ChainSurvives(hash: Hash, c: ConversationId, acts: seq<Act>, listed: seq<Record>)
    requires Possible(hash, c, Start(), acts)
    requires multiset(listed) == multiset(RecordsOf(c, Play(hash, c, Start(), acts).stored))
    ensures var w := Play(hash, c, Start(), acts);
            && (forall k: nat | k < |w.stored| :: Linked(hash, w.stored, k))
            && Names(hash, w.stored, w.sequence, w.lastDigest)
            && ValidChain(hash, c, SortBySequence(listed))
            && (forall t | t in w.tabs :: !w.tabs[t].Broken?)
  {
    PlayKeeps(hash, c, Start(), acts);
    InvMeans(hash, c, Play(hash, c, Start(), acts), listed);
  }

  /** Accepted runs are never replaced: a later history extends every earlier one. */
  lemma HistoryOnlyGrows(hash: Hash, c: ConversationId, before: seq<Act>, after: seq<Act>)
    requires Possible(hash, c, Start(), before)
    requires Possible(hash, c, Play(hash, c, Start(), before), after)
    ensures Play(hash, c, Start(), before).stored
            <= Play(hash, c, Play(hash, c, Start(), before), after).stored
  {
    PlayKeeps(hash, c, Start(), before);
    PlayKeeps(hash, c, Play(hash, c, Start(), before), after);
  }
}
