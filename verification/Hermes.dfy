// Admission control for Hermes chat requests: one request per chat at a time, a few chats in parallel, a
// bounded first-in first-out queue behind them.
module Hermes {
  import opened Prelude

  const HERMES_PROVIDERS: seq<string> := ["csgateway", "openai-codex", "deepseek"]
  const HERMES_MAX_PARALLEL_CHATS: nat := 3
  const HERMES_MAX_QUEUE: nat := 30

  // Chat and request identifiers are only ever compared for equality.
  type Id = nat

  datatype Request = Request(chatId: Id, requestId: Id, provider: string, enqueuedAt: int)
  datatype Reason = Busy | Duplicate | UnknownProvider
  datatype Admission = Started | Queued(position: nat) | Rejected(reason: Reason)

  datatype Limits = Limits(maxParallel: nat, maxQueue: nat)
  datatype State = State(active: map<Id, Id>, queue: seq<Request>, seen: set<Id>)

  // ---------------------------------------------------------------- one call

  function Verdict(l: Limits, s: State, r: Request): Admission {
    if r.provider !in HERMES_PROVIDERS then Rejected(UnknownProvider)
    else if r.requestId in s.seen then Rejected(Duplicate)
    else if r.chatId in s.active || |s.active| >= l.maxParallel then
      if |s.queue| >= l.maxQueue then Rejected(Busy) else Queued(|s.queue| + 1)
    else Started
  }

  /**
   * A request starts exactly when its provider is known, its id is new, its chat is idle and a slot is free;
   * one of a busy chat waits even with slots free, at the end of a queue that is not full.
   */
  lemma AdmissionMeans(l: Limits, s: State, r: Request)
    ensures var known, unseen := r.provider in ["csgateway", "openai-codex", "deepseek"], r.requestId !in s.seen;
            && (Verdict(l, s, r) == Started <==>
                  known && unseen && r.chatId !in s.active && |s.active| < l.maxParallel)
            && (Verdict(l, s, r) == Queued(|s.queue| + 1) <==>
                  known && unseen && (r.chatId in s.active || |s.active| >= l.maxParallel) && |s.queue| < l.maxQueue)
            && (Verdict(l, s, r) == Rejected(Busy) <==>
                  known && unseen && (r.chatId in s.active || |s.active| >= l.maxParallel) && |s.queue| >= l.maxQueue)
            && (Verdict(l, s, r) == Rejected(Duplicate) <==> known && !unseen)
            && (Verdict(l, s, r) == Rejected(UnknownProvider) <==> !known)
  {
  }

  function Admitted(l: Limits, s: State, r: Request): State {
    match Verdict(l, s, r)
    case Rejected(_) => s
    case Queued(_) => s.(queue := s.queue + [r], seen := s.seen + {r.requestId})
    case Started => s.(active := s.active[r.chatId := r.requestId], seen := s.seen + {r.requestId})
  }

  predicate Holds(s: State, chatId: Id, requestId: Id) {
    chatId in s.active && s.active[chatId] == requestId
  }

  /** Only ever the head of the queue, and only when a slot is free and its chat is idle. */
  function NextUp(l: Limits, s: State): Option<Request> {
    if s.queue != [] && |s.active| < l.maxParallel && s.queue[0].chatId !in s.active
    then Some(s.queue[0]) else None
  }

  function Launched(s: State, next: Option<Request>): State
    requires next.Some? ==> s.queue != []
  {
    match next
    case None => s
    case Some(r) => s.(active := s.active[r.chatId := r.requestId], queue := s.queue[1..])
  }

  function Released(s: State, chatId: Id): State {
    s.(active := s.active - {chatId})
  }

  function IndexOf(q: seq<Request>, requestId: Id): (i: int)
    ensures -1 <= i < |q|
    ensures i >= 0 ==> q[i].requestId == requestId
    ensures forall j | 0 <= j < (if i < 0 then |q| else i) :: q[j].requestId != requestId
  {
    if q == [] then -1
    else if q[0].requestId == requestId then 0
    else
      var rest := IndexOf(q[1..], requestId);
      if rest < 0 then -1 else rest + 1
  }

  function Without(q: seq<Request>, i: nat): seq<Request>
    requires i < |q|
  {
    q[..i] + q[i + 1..]
  }

  class HermesConcurrencyController {
    const maxParallel: nat
    const maxQueue: nat
    var activeByChat: map<Id, Id>
    var queue: seq<Request>
    var seenRequestIds: set<Id>

    function Bounds(): Limits { Limits(maxParallel, maxQueue) }

    function Now(): State
      reads this
    {
      State(activeByChat, queue, seenRequestIds)
    }

    constructor (maxParallel: nat := HERMES_MAX_PARALLEL_CHATS, maxQueue: nat := HERMES_MAX_QUEUE)
      ensures Bounds() == Limits(maxParallel, maxQueue) && Now() == State(map[], [], {})
    {
      this.maxParallel, this.maxQueue := maxParallel, maxQueue;
      activeByChat, queue, seenRequestIds := map[], [], {};
    }

    method Admit(request: Request) returns (answer: Admission)
      modifies this
      ensures answer == Verdict(Bounds(), old(Now()), request)
      ensures Now() == Admitted(Bounds(), old(Now()), request)
    {
      if request.provider !in HERMES_PROVIDERS { return Rejected(UnknownProvider); }
      if request.requestId in seenRequestIds { return Rejected(Duplicate); }
      if request.chatId in activeByChat || |activeByChat| >= maxParallel {
        if |queue| >= maxQueue { return Rejected(Busy); }
        queue := queue + [request];
        seenRequestIds := seenRequestIds + {request.requestId};
        return Queued(|queue|);
      }
      activeByChat := activeByChat[request.chatId := request.requestId];
      seenRequestIds := seenRequestIds + {request.requestId};
      return Started;
    }

    method Complete(chatId: Id, requestId: Id) returns (next: Option<Request>)
      modifies this
      ensures old(Holds(Now(), chatId, requestId)) ==>
                next == NextUp(Bounds(), Released(old(Now()), chatId))
                && Now() == Launched(Released(old(Now()), chatId), next)
      ensures !old(Holds(Now(), chatId, requestId)) ==> next == None && Now() == old(Now())
    {
      if chatId !in activeByChat || activeByChat[chatId] != requestId { return None; }
      activeByChat := activeByChat - {chatId};
      next := DequeueNext();
    }

    method CancelQueued(requestId: Id) returns (found: bool)
      modifies this
      ensures found <==> IndexOf(old(queue), requestId) >= 0
      ensures Now() == if found then old(Now()).(queue := Without(old(queue), IndexOf(old(queue), requestId)))
                       else old(Now())
    {
      var index := IndexOf(queue, requestId);
      if index < 0 { return false; }
      queue := Without(queue, index);
      return true;
    }

    /**
     * Starts the head if a slot is free and its chat is idle. The search for an idle chat further back comes
     * after it, and so only ever runs on an empty queue or without a free slot, where it starts nothing.
     */
    method DequeueNext() returns (next: Option<Request>)
      modifies this
      ensures next == NextUp(Bounds(), old(Now()))
      ensures Now() == Launched(old(Now()), next)
    {
      if |queue| > 0 && |activeByChat| < maxParallel {
        var head := queue[0];
        queue := queue[1..];
        if head.chatId in activeByChat {
          queue := [head] + queue;
          return None;
        }
        activeByChat := activeByChat[head.chatId := head.requestId];
        return Some(head);
      }
      next := StartFirstIdle();
    }

    method StartFirstIdle() returns (next: Option<Request>)
      modifies this
      ensures next == None ==>
                && Now() == old(Now())
                && (|activeByChat| >= maxParallel || forall r | r in queue :: r.chatId in activeByChat)
      ensures next != None ==>
                && |old(activeByChat)| < maxParallel
                && activeByChat == old(activeByChat)[next.value.chatId := next.value.requestId]
                && seenRequestIds == old(seenRequestIds)
                && exists i | 0 <= i < |old(queue)| ::
                     && queue == Without(old(queue), i)
                     && old(queue)[i] == next.value && next.value.chatId !in old(activeByChat)
                     && forall j | 0 <= j < i :: old(queue)[j].chatId in old(activeByChat)
    {
      var i := 0;
      while i < |queue|
        invariant 0 <= i <= |queue| && Now() == old(Now())
        invariant forall j | 0 <= j < i :: queue[j].chatId in activeByChat
      {
        var candidate := queue[i];
        if candidate.chatId in activeByChat {
          i := i + 1;
          continue;
        }
        if |activeByChat| >= maxParallel { break; }
        queue := Without(queue, i);
        activeByChat := activeByChat[candidate.chatId := candidate.requestId];
        return Some(candidate);
      }
      next := None;
    }
  }

  // ---------------------------------------------------------------- whole runs

  datatype Call = Admit(request: Request) | Complete(chatId: Id, requestId: Id) | Cancel(requestId: Id)

  /** What became of the requests: ids in the order they entered and left the queue, and those done with. */
  datatype Log = Log(entered: seq<Id>, left: seq<Id>, completed: set<Id>, cancelled: set<Id>)

  datatype World = World(s: State, log: Log)

  const START := World(State(map[], [], {}), Log([], [], {}, {}))

  function Do(l: Limits, w: World, c: Call): World {
    match c
    case Admit(r) =>
      World(Admitted(l, w.s, r),
            if Verdict(l, w.s, r).Queued? then w.log.(entered := w.log.entered + [r.requestId]) else w.log)
    case Complete(chat, id) =>
      if !Holds(w.s, chat, id) then w
      else
        var freed := Released(w.s, chat);
        var next := NextUp(l, freed);
        World(Launched(freed, next),
              w.log.(completed := w.log.completed + {id},
                     left := w.log.left + if next.Some? then [next.value.requestId] else []))
    case Cancel(id) =>
      var i := IndexOf(w.s.queue, id);
      if i < 0 then w
      else World(w.s.(queue := Without(w.s.queue, i)), w.log.(cancelled := w.log.cancelled + {id}))
  }

  function Play(l: Limits, w: World, calls: seq<Call>): World
    decreases |calls|
  {
    if calls == [] then w else Play(l, Do(l, w, calls[0]), calls[1..])
  }

  function Ids(q: seq<Request>): seq<Id> {
    seq(|q|, i requires 0 <= i < |q| => q[i].requestId)
  }

  function Minus(ids: seq<Id>, gone: set<Id>): seq<Id> {
    if ids == [] then []
    else (if ids[0] in gone then [] else [ids[0]]) + Minus(ids[1..], gone)
  }

  function IdSet(q: seq<Request>): set<Id> {
    set id | id in Ids(q)
  }

  predicate Bounded(l: Limits, s: State) {
    |s.active| <= l.maxParallel && |s.queue| <= l.maxQueue
  }

  predicate NeverIdle(l: Limits, s: State) {
    s.queue != [] && l.maxParallel > 0 ==> s.active != map[]
  }

  predicate OneChatEach(active: map<Id, Id>) {
    forall c, d | c in active && d in active && active[c] == active[d] :: c == d
  }

  predicate Distinct(ids: seq<Id>) {
    forall i, j | 0 <= i < j < |ids| :: ids[i] != ids[j]
  }

  /** In how many of the four places a request is found. */
  function Places(id: Id, active: set<Id>, waiting: set<Id>, log: Log): nat {
    (if id in active then 1 else 0) + (if id in waiting then 1 else 0)
    + (if id in log.completed then 1 else 0) + (if id in log.cancelled then 1 else 0)
  }

  /** Every accepted id is in exactly one place, and no other id is in any. */
  ghost predicate Accounted(seen: set<Id>, active: set<Id>, waiting: set<Id>, log: Log) {
    forall id :: Places(id, active, waiting, log) == if id in seen then 1 else 0
  }

  /** What entered the queue, less what was cancelled, is what left it followed by what still waits. */
  predicate InOrder(log: Log, waiting: seq<Id>) {
    Minus(log.entered, log.cancelled) == log.left + waiting
  }

  predicate LeftAreStarted(log: Log, active: set<Id>) {
    forall id | id in log.left :: id in active || id in log.completed
  }

  ghost predicate Steady(l: Limits, w: World) {
    && Bounded(l, w.s) && OneChatEach(w.s.active) && Distinct(Ids(w.s.queue))
    && Accounted(w.s.seen, w.s.active.Values, IdSet(w.s.queue), w.log)
    && InOrder(w.log, Ids(w.s.queue)) && LeftAreStarted(w.log, w.s.active.Values)
  }

  ghost predicate Good(l: Limits, w: World) {
    Steady(l, w) && NeverIdle(l, w.s)
  }

  // ---------------------------------------------------------------- the queue's order

  lemma {:induction false} MinusConcat(a: seq<Id>, b: seq<Id>, gone: set<Id>)
    ensures Minus(a + b, gone) == Minus(a, gone) + Minus(b, gone)
  {
    if a == [] {
      assert a + b == b;
    } else {
      assert (a + b)[1..] == a[1..] + b;
      MinusConcat(a[1..], b, gone);
    }
  }

  lemma {:induction false} MinusNone(a: seq<Id>, gone: set<Id>)
    requires forall id | id in a :: id !in gone
    ensures Minus(a, gone) == a
  {
    if a != [] { MinusNone(a[1..], gone); }
  }

  lemma {:induction false} MinusTwice(a: seq<Id>, gone: set<Id>, also: set<Id>)
    ensures Minus(a, gone + also) == Minus(Minus(a, gone), also)
  {
    if a != [] {
      MinusTwice(a[1..], gone, also);
      MinusConcat(if a[0] in gone then [] else [a[0]], Minus(a[1..], gone), also);
    }
  }

  lemma OrderOnEntry(log: Log, waiting: seq<Id>, id: Id)
    requires InOrder(log, waiting) && id !in log.cancelled
    ensures InOrder(log.(entered := log.entered + [id]), waiting + [id])
  {
    MinusConcat(log.entered, [id], log.cancelled);
  }

  lemma {:induction false} MinusOne(before: seq<Id>, id: Id, after: seq<Id>)
    requires id !in before && id !in after
    ensures Minus(before + ([id] + after), {id}) == before + after
  {
    var all := before + ([id] + after);
    if before == [] {
      assert all[1..] == after && before + after == after;
      MinusNone(after, {id});
    } else {
      assert all[1..] == before[1..] + ([id] + after);
      MinusOne(before[1..], id, after);
      assert before + after == [before[0]] + (before[1..] + after);
    }
  }

  lemma OrderOnCancel(log: Log, before: seq<Id>, id: Id, after: seq<Id>)
    requires id !in before && id !in after && id !in log.left
    requires InOrder(log, before + ([id] + after))
    ensures InOrder(log.(cancelled := log.cancelled + {id}), before + after)
  {
    MinusTwice(log.entered, log.cancelled, {id});
    MinusConcat(log.left, before + ([id] + after), {id});
    MinusNone(log.left, {id});
    MinusOne(before, id, after);
  }

  lemma IdsWithout(q: seq<Request>, i: nat)
    requires i < |q| && Distinct(Ids(q))
    ensures Ids(q) == Ids(q[..i]) + ([q[i].requestId] + Ids(q[i + 1..]))
    ensures Ids(Without(q, i)) == Ids(q[..i]) + Ids(q[i + 1..]) && Distinct(Ids(Without(q, i)))
    ensures q[i].requestId !in Ids(q[..i]) && q[i].requestId !in Ids(q[i + 1..])
    ensures IdSet(Without(q, i)) == IdSet(q) - {q[i].requestId} && q[i].requestId in IdSet(q)
  {
    var ids, n := Ids(q), Ids(Without(q, i));
    assert Ids(q[..i]) == ids[..i] && Ids(q[i + 1..]) == ids[i + 1..];
    assert n == ids[..i] + ids[i + 1..];
    assert ids[i] in ids;
    forall j, k | 0 <= j < k < |n| ensures n[j] != n[k] {
      assert n[j] == ids[if j < i then j else j + 1] && n[k] == ids[if k < i then k else k + 1];
    }
    forall id | id in ids && id != ids[i] ensures id in n {
      var k :| 0 <= k < |ids| && ids[k] == id;
      assert if k < i then n[k] == id else n[k - 1] == id;
    }
  }

  // ---------------------------------------------------------------- maps with distinct values

  lemma AddedValues(m: map<Id, Id>, c: Id, id: Id)
    requires c !in m
    ensures m[c := id].Values == m.Values + {id} && |m[c := id]| == |m| + 1
    ensures OneChatEach(m) && id !in m.Values ==> OneChatEach(m[c := id])
  {
    var n := m[c := id];
    assert n.Keys == m.Keys + {c};
    forall v | v in m.Values + {id} ensures v in n.Values {
      if v == id { assert n[c] == id; } else {
        var k :| k in m && m[k] == v;
        assert n[k] == v;
      }
    }
  }

  lemma RemovedValues(m: map<Id, Id>, c: Id)
    requires c in m && OneChatEach(m)
    ensures OneChatEach(m - {c}) && (m - {c}).Values == m.Values - {m[c]} && |m - {c}| == |m| - 1
  {
    var n := m - {c};
    assert n.Keys == m.Keys - {c};
    forall v | v in m.Values - {m[c]} ensures v in n.Values {
      var k :| k in m && m[k] == v;
      assert n[k] == v;
    }
  }

  // ---------------------------------------------------------------- every call keeps everything

  lemma QueuedKeeps(l: Limits, w: World, r: Request)
    requires Good(l, w) && Verdict(l, w.s, r).Queued?
    ensures Good(l, Do(l, w, Admit(r)))
  {
    var s, n := w.s, Do(l, w, Admit(r));
    var ids := Ids(s.queue);
    assert Ids(n.s.queue) == ids + [r.requestId];
    assert IdSet(n.s.queue) == IdSet(s.queue) + {r.requestId};
    assert Places(r.requestId, s.active.Values, IdSet(s.queue), w.log) == 0;
    assert r.requestId !in ids by { assert r.requestId !in IdSet(s.queue); }
    OrderOnEntry(w.log, ids, r.requestId);
  }

  lemma AccountedStart(seen: set<Id>, active: set<Id>, waiting: set<Id>, log: Log, id: Id)
    requires Accounted(seen, active, waiting, log) && id !in seen
    ensures Accounted(seen + {id}, active + {id}, waiting, log)
  {
    assert Places(id, active, waiting, log) == 0;
    forall x ensures Places(x, active + {id}, waiting, log) == if x in seen + {id} then 1 else 0 {
      assert Places(x, active, waiting, log) == if x in seen then 1 else 0;
    }
  }

  lemma AccountedLaunch(seen: set<Id>, active: set<Id>, waiting: set<Id>, log: Log, id: Id, left: seq<Id>)
    requires Accounted(seen, active, waiting, log) && id in waiting
    ensures id !in active && Accounted(seen, active + {id}, waiting - {id}, log.(left := left))
  {
    assert Places(id, active, waiting, log) <= 1;
    forall x ensures Places(x, active + {id}, waiting - {id}, log.(left := left)) == if x in seen then 1 else 0 {
      assert Places(x, active, waiting, log) == if x in seen then 1 else 0;
    }
  }

  lemma StartedKeeps(l: Limits, w: World, r: Request)
    requires Good(l, w) && Verdict(l, w.s, r).Started?
    ensures Good(l, Do(l, w, Admit(r)))
  {
    var s, n := w.s, Do(l, w, Admit(r));
    assert Places(r.requestId, s.active.Values, IdSet(s.queue), w.log) == 0;
    AccountedStart(s.seen, s.active.Values, IdSet(s.queue), w.log, r.requestId);
    AddedValues(s.active, r.chatId, r.requestId);
    assert r.chatId in n.s.active;
  }

  lemma ReleaseKeeps(l: Limits, w: World, chat: Id, id: Id)
    requires Steady(l, w) && Holds(w.s, chat, id)
    ensures Steady(l, World(Released(w.s, chat), w.log.(completed := w.log.completed + {id})))
  {
    RemovedValues(w.s.active, chat);
    assert id in w.s.active.Values;
    assert Places(id, w.s.active.Values, IdSet(w.s.queue), w.log) <= 1;
  }

  lemma LaunchKeeps(l: Limits, w: World)
    requires Steady(l, w) && NextUp(l, w.s).Some?
    ensures var next := NextUp(l, w.s);
            Steady(l, World(Launched(w.s, next), w.log.(left := w.log.left + [next.value.requestId])))
  {
    var r, q := w.s.queue[0], w.s.queue;
    IdsWithout(q, 0);
    assert Without(q, 0) == q[1..];
    assert Ids(q[..0]) == [];
    AccountedLaunch(w.s.seen, w.s.active.Values, IdSet(q), w.log, r.requestId, w.log.left + [r.requestId]);
    AddedValues(w.s.active, r.chatId, r.requestId);
    assert Minus(w.log.entered, w.log.cancelled) == (w.log.left + [r.requestId]) + Ids(q[1..]);
  }

  lemma CompleteKeeps(l: Limits, w: World, chat: Id, id: Id)
    requires Good(l, w) && Holds(w.s, chat, id)
    ensures Good(l, Do(l, w, Complete(chat, id)))
  {
    ReleaseKeeps(l, w, chat, id);
    RemovedValues(w.s.active, chat);
    var freed := World(Released(w.s, chat), w.log.(completed := w.log.completed + {id}));
    var next := NextUp(l, freed.s);
    if next.Some? {
      LaunchKeeps(l, freed);
      assert next.value.chatId in Do(l, w, Complete(chat, id)).s.active;
    } else {
      assert freed.log.left + [] == freed.log.left;
      if w.s.queue != [] && l.maxParallel > 0 { assert w.s.queue[0].chatId in freed.s.active; }
    }
  }

  lemma CancelKeeps(l: Limits, w: World, id: Id)
    requires Good(l, w)
    ensures Good(l, Do(l, w, Cancel(id)))
  {
    var q := w.s.queue;
    var i := IndexOf(q, id);
    if i >= 0 {
      IdsWithout(q, i);
      assert Places(id, w.s.active.Values, IdSet(q), w.log) == 1;
      OrderOnCancel(w.log, Ids(q[..i]), id, Ids(q[i + 1..]));
    }
  }

  /**
   * Whatever calls arrive in whatever order: the limits hold; every accepted request is running, waiting,
   * completed or cancelled, and only one of these; nothing waits while nothing runs; and requests leave the
   * queue in exactly the order they entered it, the cancelled ones aside.
   */
  lemma {:induction false} AlwaysGood(l: Limits, w: World, calls: seq<Call>)
    requires Good(l, w)
    ensures Good(l, Play(l, w, calls))
    decreases |calls|
  {
    if calls != [] {
      match calls[0] {
        case Admit(r) =>
          if Verdict(l, w.s, r).Queued? { QueuedKeeps(l, w, r); }
          if Verdict(l, w.s, r).Started? { StartedKeeps(l, w, r); }
        case Complete(chat, id) => if Holds(w.s, chat, id) { CompleteKeeps(l, w, chat, id); }
        case Cancel(id) => CancelKeeps(l, w, id);
      }
      AlwaysGood(l, Do(l, w, calls[0]), calls[1..]);
    }
  }

  /** So from a new controller on, in every state calls can lead to. */
  lemma ReachableIsGood(l: Limits, calls: seq<Call>)
    ensures Good(l, Play(l, START, calls))
  {
    assert Ids([]) == [];
    AlwaysGood(l, START, calls);
  }

  /** With the limits a controller has by default, never more than 3 chats run and 30 requests wait. */
  lemma DefaultLimitsHold(calls: seq<Call>)
    ensures var s := Play(Limits(HERMES_MAX_PARALLEL_CHATS, HERMES_MAX_QUEUE), START, calls).s;
            |s.active| <= 3 && |s.queue| <= 30
  {
    ReachableIsGood(Limits(HERMES_MAX_PARALLEL_CHATS, HERMES_MAX_QUEUE), calls);
  }

  // ---------------------------------------------------------------- draining

  function Load(s: State): nat {
    |s.active| + |s.queue|
  }

  /** A completion of a running request, or a cancellation of a waiting one. */
  predicate Effective(s: State, c: Call) {
    match c
    case Admit(_) => false
    case Complete(chat, id) => Holds(s, chat, id)
    case Cancel(id) => IndexOf(s.queue, id) >= 0
  }

  function EffectiveCount(l: Limits, w: World, calls: seq<Call>): nat
    decreases |calls|
  {
    if calls == [] then 0
    else (if Effective(w.s, calls[0]) then 1 else 0) + EffectiveCount(l, Do(l, w, calls[0]), calls[1..])
  }

  lemma EffectiveTakesOne(l: Limits, w: World, c: Call)
    requires Good(l, w) && !c.Admit?
    ensures Load(Do(l, w, c).s) == Load(w.s) - if Effective(w.s, c) then 1 else 0
  {
    if c.Complete? && Holds(w.s, c.chatId, c.requestId) {
      RemovedValues(w.s.active, c.chatId);
      var freed := Released(w.s, c.chatId);
      var next := NextUp(l, freed);
      if next.Some? { AddedValues(freed.active, next.value.chatId, next.value.requestId); }
    }
  }

  /**
   * Once admissions stop, the load falls by exactly one for each effective call, and as long as any is left
   * something is running that can be completed: the controller empties after exactly `Load` such calls.
   */
  lemma {:induction false} Drains(l: Limits, w: World, calls: seq<Call>)
    requires Good(l, w) && l.maxParallel > 0 && forall c | c in calls :: !c.Admit?
    ensures var n := Play(l, w, calls);
            && Load(n.s) == Load(w.s) - EffectiveCount(l, w, calls)
            && (Load(n.s) > 0 ==> exists chat :: chat in n.s.active && Effective(n.s, Complete(chat, n.s.active[chat])))
    decreases |calls|
  {
    AlwaysGood(l, w, calls);
    if calls == [] {
      if Load(w.s) > 0 {
        assert w.s.active != map[];
        var chat :| chat in w.s.active;
        assert Effective(w.s, Complete(chat, w.s.active[chat]));
      }
    } else {
      AlwaysGood(l, w, calls[..1]);
      assert Play(l, w, calls[..1]) == Do(l, w, calls[0]);
      EffectiveTakesOne(l, w, calls[0]);
      Drains(l, Do(l, w, calls[0]), calls[1..]);
    }
  }

  /**
   * A completion frees a slot, and some queued request may belong to an idle chat, yet the queue moves
   * exactly when its head is such a request: a head whose chat is busy blocks the line.
   */
  lemma HeadBlocksIff(l: Limits, w: World, chat: Id, id: Id)
    requires Good(l, w) && Holds(w.s, chat, id)
    requires exists r :: r in w.s.queue && r.chatId !in Released(w.s, chat).active
    ensures var n, head := Do(l, w, Complete(chat, id)).s, w.s.queue[0];
            if head.chatId in w.s.active && head.chatId != chat
            then n.queue == w.s.queue && |n.active| < l.maxParallel
            else n.queue == w.s.queue[1..] && Holds(n, head.chatId, head.requestId)
  {
    RemovedValues(w.s.active, chat);
  }

  lemma {:induction false} OneMore(l: Limits, w: World, calls: seq<Call>, c: Call)
    ensures Play(l, w, calls + [c]) == Do(l, Play(l, w, calls), c)
    decreases |calls|
  {
    if calls == [] {
      assert calls + [c] == [c];
    } else {
      assert (calls + [c])[1..] == calls[1..] + [c];
      OneMore(l, Do(l, w, calls[0]), calls[1..], c);
    }
  }

  lemma Enters(l: Limits, w: World, r: Request)
    requires r.provider in HERMES_PROVIDERS && r.requestId !in w.s.seen
    requires |w.s.active| >= l.maxParallel && |w.s.queue| < l.maxQueue
    ensures Do(l, w, Admit(r)) == World(State(w.s.active, w.s.queue + [r], w.s.seen + {r.requestId}),
                                        w.log.(entered := w.log.entered + [r.requestId]))
  {
  }

  lemma Goes(l: Limits, w: World, r: Request)
    requires r.provider in HERMES_PROVIDERS && r.requestId !in w.s.seen
    requires r.chatId !in w.s.active && |w.s.active| < l.maxParallel
    ensures Do(l, w, Admit(r))
            == World(State(w.s.active[r.chatId := r.requestId], w.s.queue, w.s.seen + {r.requestId}), w.log)
  {
  }

  lemma TwoChats(l: Limits, p: string)
    requires p in HERMES_PROVIDERS && l.maxParallel == 2
    ensures Play(l, START, [Admit(Request(1, 10, p, 0))] + [Admit(Request(2, 20, p, 1))])
            == World(State(map[1 := 10, 2 := 20], [], {10, 20}), START.log)
  {
    hide Do;
    AddedValues(map[], 1, 10);
    Goes(l, START, Request(1, 10, p, 0));
    Goes(l, World(State(map[1 := 10], [], {10}), START.log), Request(2, 20, p, 1));
    assert [] + [Admit(Request(1, 10, p, 0))] == [Admit(Request(1, 10, p, 0))];
    OneMore(l, START, [], Admit(Request(1, 10, p, 0)));
    OneMore(l, START, [Admit(Request(1, 10, p, 0))], Admit(Request(2, 20, p, 1)));
  }

  lemma CompletesAlone(l: Limits, w: World, chat: Id, id: Id)
    requires Holds(w.s, chat, id) && NextUp(l, Released(w.s, chat)).None?
    ensures Do(l, w, Complete(chat, id)) == World(Released(w.s, chat), w.log.(completed := w.log.completed + {id}))
  {
    assert w.log.left + [] == w.log.left;
  }

  /** Two requests queue up behind full slots, and then a completion starts neither. */
  lemma QueueThenFree(l: Limits, w: World, a: Request, b: Request, chat: Id, id: Id)
    requires a.provider in HERMES_PROVIDERS && b.provider in HERMES_PROVIDERS && a.requestId != b.requestId
    requires a.requestId !in w.s.seen && b.requestId !in w.s.seen && w.s.queue == [] && w.log == START.log
    requires |w.s.active| == l.maxParallel && l.maxQueue >= 2 && Holds(w.s, chat, id)
    requires a.chatId in w.s.active && a.chatId != chat
    ensures Do(l, Do(l, Do(l, w, Admit(a)), Admit(b)), Complete(chat, id))
            == World(State(w.s.active - {chat}, [a, b], w.s.seen + {a.requestId} + {b.requestId}),
                     Log([a.requestId, b.requestId], [], {id}, {}))
  {
    hide Do;
    var w3 := World(State(w.s.active, [a], w.s.seen + {a.requestId}), Log([a.requestId], [], {}, {}));
    var w4 := World(State(w.s.active, [a, b], w3.s.seen + {b.requestId}),
                    Log([a.requestId, b.requestId], [], {}, {}));
    assert [] + [a] == [a] && [a] + [b] == [a, b];
    assert [] + [a.requestId] == [a.requestId] && [a.requestId] + [b.requestId] == [a.requestId, b.requestId];
    Enters(l, w, a);
    Enters(l, w3, b);
    assert {} + {id} == {id};
    CompletesAlone(l, w4, chat, id);
  }

  lemma FiveCalls(l: Limits, w: World, a: Call, b: Call, c: Call, d: Call, e: Call)
    ensures Play(l, w, [a, b, c, d, e]) == Do(l, Do(l, Do(l, Play(l, w, [a] + [b]), c), d), e)
  {
    hide Do, Play;
    OneMore(l, w, [a] + [b], c);
    OneMore(l, w, [a] + [b] + [c], d);
    OneMore(l, w, [a] + [b] + [c] + [d], e);
    assert [a, b, c, d, e] == [a] + [b] + [c] + [d] + [e];
  }

  /** Such a blocked line is reachable: chat 3 is idle and a slot is free, but chat 1's second request is first. */
  lemma BlockedLine(p: string)
    requires p in HERMES_PROVIDERS
    ensures Play(Limits(2, HERMES_MAX_QUEUE), START,
                 [Admit(Request(1, 10, p, 0)), Admit(Request(2, 20, p, 1)), Admit(Request(1, 11, p, 2)),
                  Admit(Request(3, 30, p, 3)), Complete(2, 20)])
            == World(State(map[1 := 10], [Request(1, 11, p, 2), Request(3, 30, p, 3)], {10, 20, 11, 30}),
                     Log([11, 30], [], {20}, {}))
  {
    hide Do, Play;
    var l, third, fourth := Limits(2, HERMES_MAX_QUEUE), Request(1, 11, p, 2), Request(3, 30, p, 3);
    var w2 := World(State(map[1 := 10, 2 := 20], [], {10, 20}), START.log);
    TwoChats(l, p);
    FiveCalls(l, START, Admit(Request(1, 10, p, 0)), Admit(Request(2, 20, p, 1)), Admit(third), Admit(fourth),
              Complete(2, 20));
    AddedValues(map[], 1, 10);
    AddedValues(map[1 := 10], 2, 20);
    QueueThenFree(l, w2, third, fourth, 2, 20);
    assert map[1 := 10, 2 := 20] - {2} == map[1 := 10];
    assert {10, 20} + {11} + {30} == {10, 20, 11, 30};
  }
}
