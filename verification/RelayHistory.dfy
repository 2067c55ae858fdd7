// The encrypted history: a KMS key wraps each account's key-encryption keys (one per epoch), one of
// those wraps each conversation's data key, and that seals every message under its own position.
module RelayHistory {
  import opened Prelude
  import opened RelayRows
  import opened RelayPaging

  datatype Kms = Kms(keyId: string, master: Secret)

  datatype Conversation = Conversation(account: Option<Account>, relay: bool, dek: Option<Sealed>, epoch: nat)

  type Keks = map<(Account, nat), Sealed>

  datatype History = History(keks: Keks, conversations: map<ConversationId, Conversation>, rows: Rows)

  // ---------------------------------------------------------------- epochs

  function Epochs(keks: Keks, a: Account): set<nat> {
    set k | k in keks && k.0 == a :: k.1
  }

  lemma {:induction false} GreatestExists(es: set<nat>)
    requires es != {}
    ensures exists m :: m in es && forall x | x in es :: x <= m
  {
    var e :| e in es;
    var rest := es - {e};
    if rest == {} {
      assert es == {e};
    } else {
      GreatestExists(rest);
      var m :| m in rest && forall x | x in rest :: x <= m;
      var top := if m < e then e else m;
      forall x | x in es ensures x <= top {
        if x != e { assert x in rest; }
      }
      assert top in es;
    }
  }

  /** `order by epoch desc limit 1`; 0 when the account has none. */
  function LatestEpoch(keks: Keks, a: Account): (m: nat)
    ensures Epochs(keks, a) != {} ==> (a, m) in keks && forall x | x in Epochs(keks, a) :: x <= m
    ensures Epochs(keks, a) == {} ==> m == 0
  {
    var es := Epochs(keks, a);
    if es == {} then 0
    else
      GreatestExists(es);
      var m :| m in es && forall x | x in es :: x <= m;
      m
  }

  lemma EpochListed(keks: Keks, a: Account, e: nat)
    ensures (a, e) in keks ==> e in Epochs(keks, a)
  {
  }

  // ---------------------------------------------------------------- opening keys

  function SecretOf(p: Option<Plain>): Option<Secret> {
    if p.Some? && p.value.KeyBytes? then Some(p.value.secret) else None
  }

  /** openAccountKek; None is a thrown error. A zero epoch asks for the latest one. */
  function OpenKek(kms: Kms, keks: Keks, a: Account, epoch: nat): Option<(nat, Secret)> {
    var e := if epoch == 0 then LatestEpoch(keks, a) else epoch;
    if (a, e) !in keks then None
    else
      var secret := SecretOf(Open(kms.master, KekAad(a, e, kms.keyId), keks[(a, e)]));
      if secret.None? then None else Some((e, secret.value))
  }

  /** The data key of a conversation as its owner opens it. */
  function OpenDek(kms: Kms, h: History, a: Account, c: ConversationId): Option<Secret>
    requires c in h.conversations && h.conversations[c].dek.Some?
  {
    var row := h.conversations[c];
    var kek := OpenKek(kms, h.keks, a, row.epoch);
    if kek.None? then None
    else SecretOf(Open(kek.value.1, DekAad(a, c, row.epoch), row.dek.value))
  }

  // ---------------------------------------------------------------- the operations, as functions

  function WrapKek(kms: Kms, a: Account, epoch: nat, random: Secret): Sealed {
    Sealed(kms.master, KekAad(a, epoch, kms.keyId), KeyBytes(random))
  }

  function EnsureKek(kms: Kms, h: History, a: Account, random: Secret): (History, Option<(nat, Secret)>) {
    if Epochs(h.keks, a) != {} then (h, OpenKek(kms, h.keks, a, 0))
    else (h.(keks := h.keks[(a, 1) := WrapKek(kms, a, 1, random)]), Some((1, random)))
  }

  /** The new epoch, or None where the source throws. */
  function BumpKek(kms: Kms, h: History, a: Account, random: Secret): (History, Option<nat>) {
    var current := OpenKek(kms, h.keks, a, 0);
    if current.None? || (a, current.value.0 + 1) in h.keks then (h, None)
    else
      var next := current.value.0 + 1;
      (h.(keks := h.keks[(a, next) := WrapKek(kms, a, next, random)]), Some(next))
  }

  predicate Keyed(h: History, a: Account, c: ConversationId) {
    c in h.conversations && h.conversations[c].account == Some(a) && h.conversations[c].dek.Some?
  }

  function EnsureDek(kms: Kms, h: History, a: Account, c: ConversationId, randomKek: Secret, randomDek: Secret)
    : (History, Option<Secret>)
  {
    if Keyed(h, a, c) then (h, OpenDek(kms, h, a, c))
    else
      var (h1, kek) := EnsureKek(kms, h, a, randomKek);
      if kek.None? then (h1, None)
      else
        var (epoch, secret) := kek.value;
        var wrapped := Sealed(secret, DekAad(a, c, epoch), KeyBytes(randomDek));
        (if c in h1.conversations
         then h1.(conversations := h1.conversations[c := Conversation(Some(a), true, Some(wrapped), epoch)])
         else h1,
         Some(randomDek))
  }

  /** One call of appendRelayMessage, with the random values it would draw. */
  datatype Append = Append(
    account: Account, conversation: ConversationId, role: string, text: string,
    key: Option<Key>, expected: Option<nat>, randomKek: Secret, randomDek: Secret)

  datatype AppendResult = Appended(sequence: nat) | Replayed(sequence: nat) | Thrown

  function SealMessage(dek: Secret, m: Append, next: nat): Sealed {
    Sealed(dek, MessageAad(m.conversation, next, m.role), Message(m.role, m.text))
  }

  function AppendStep(kms: Kms, h: History, m: Append): (History, AppendResult) {
    var existing := if m.key.Some? then FindKey(h.rows, m.account, m.key.value) else None;
    if existing.Some? then (h, Replayed(existing.value.sequence))
    else
      var (h1, dek) := EnsureDek(kms, h, m.account, m.conversation, m.randomKek, m.randomDek);
      var next := MaxSequence(h1.rows, m.conversation) + 1;
      if dek.None? || !ExpectedFits(m.expected, next) || m.conversation !in h1.conversations then (h1, Thrown)
      else
        var row := Row(m.conversation, m.account, next, m.role, SealMessage(dek.value, m, next), m.key);
        if Conflicts(h1.rows, row) then (h1, Thrown)
        else (h1.(rows := h1.rows + [row]), Appended(next))
  }

  /** A decrypted message as the reader receives it. */
  datatype Line = Line(sequence: nat, role: string, content: string)

  function Decrypt(dek: Secret, c: ConversationId, r: Row): Option<Line> {
    var plain := Open(dek, MessageAad(c, r.sequence, r.role), r.ciphertext);
    if plain.Some? && plain.value.Message? then Some(Line(r.sequence, r.role, plain.value.text)) else None
  }

  // ---------------------------------------------------------------- the invariant

  ghost predicate KekInv(kms: Kms, keks: Keks) {
    forall a: Account, e: nat | (a, e) in keks :: e >= 1 && exists s :: keks[(a, e)] == WrapKek(kms, a, e, s)
  }

  ghost predicate KeyInv(kms: Kms, h: History, c: ConversationId)
    requires c in h.conversations
  {
    var row := h.conversations[c];
    row.dek.Some? ==> row.relay && row.account.Some? && row.epoch >= 1 && OpenDek(kms, h, row.account.value, c).Some?
  }

  ghost predicate SealedInPlace(kms: Kms, h: History, r: Row) {
    r.conversation in h.conversations && h.conversations[r.conversation].dek.Some?
    && h.conversations[r.conversation].account == Some(r.account)
    && OpenDek(kms, h, r.account, r.conversation).Some?
    && Decrypt(OpenDek(kms, h, r.account, r.conversation).value, r.conversation, r).Some?
  }

  ghost predicate HistoryInv(kms: Kms, h: History) {
    && KekInv(kms, h.keks)
    && (forall c | c in h.conversations :: KeyInv(kms, h, c))
    && RowsInv(h.rows)
    && (forall r | r in h.rows :: SealedInPlace(kms, h, r))
  }

  // ---------------------------------------------------------------- each operation keeps it

  lemma OpensEveryEpoch(kms: Kms, keks: Keks, a: Account, e: nat)
    requires KekInv(kms, keks) && (a, e) in keks
    ensures OpenKek(kms, keks, a, e).Some? && OpenKek(kms, keks, a, e).value.0 == e
  {
    var s :| keks[(a, e)] == WrapKek(kms, a, e, s);
  }

  /** Old epochs stay openable: adding one changes what no other opens to. */
  lemma KekAdded(kms: Kms, h: History, a: Account, e: nat, random: Secret)
    requires HistoryInv(kms, h) && (a, e) !in h.keks && e >= 1
    ensures HistoryInv(kms, h.(keks := h.keks[(a, e) := WrapKek(kms, a, e, random)]))
  {
    var h' := h.(keks := h.keks[(a, e) := WrapKek(kms, a, e, random)]);
    forall b: Account, f: nat | (b, f) in h'.keks
      ensures f >= 1 && exists s :: h'.keks[(b, f)] == WrapKek(kms, b, f, s)
    {
      if (b, f) != (a, e) { assert (b, f) in h.keks; }
    }
    forall c, b | c in h.conversations && h.conversations[c].dek.Some? && h.conversations[c].epoch >= 1
                  && OpenDek(kms, h, b, c).Some?
      ensures OpenDek(kms, h', b, c) == OpenDek(kms, h, b, c)
    {
    }
    forall c | c in h'.conversations ensures KeyInv(kms, h', c) {
      assert KeyInv(kms, h, c);
    }
    forall r | r in h'.rows ensures SealedInPlace(kms, h', r) {
      assert SealedInPlace(kms, h, r) && KeyInv(kms, h, r.conversation);
    }
  }

  lemma EnsureKekKeeps(kms: Kms, h: History, a: Account, random: Secret)
    requires HistoryInv(kms, h)
    ensures var (h', kek) := EnsureKek(kms, h, a, random);
            && HistoryInv(kms, h') && kek.Some? && OpenKek(kms, h'.keks, a, kek.value.0) == kek && kek.value.0 >= 1
            && h'.conversations == h.conversations && h'.rows == h.rows
  {
    if Epochs(h.keks, a) == {} {
      EpochListed(h.keks, a, 1);
      KekAdded(kms, h, a, 1, random);
    } else {
      OpensEveryEpoch(kms, h.keks, a, LatestEpoch(h.keks, a));
    }
  }

  lemma BumpKeeps(kms: Kms, h: History, a: Account, random: Secret)
    requires HistoryInv(kms, h)
    ensures var (h', epoch) := BumpKek(kms, h, a, random);
            && HistoryInv(kms, h') && h'.rows == h.rows && h'.conversations == h.conversations
            && (epoch.Some? <==> Epochs(h.keks, a) != {})
            && (epoch.Some? ==> epoch.value == LatestEpoch(h.keks, a) + 1)
  {
    EpochListed(h.keks, a, 0);
    if Epochs(h.keks, a) != {} {
      var latest := LatestEpoch(h.keks, a);
      OpensEveryEpoch(kms, h.keks, a, latest);
      EpochListed(h.keks, a, latest + 1);
      KekAdded(kms, h, a, latest + 1, random);
    }
  }

  /** Every conversation key opens, whoever asks. */
  lemma DekAlwaysOpens(kms: Kms, h: History, a: Account, c: ConversationId, randomKek: Secret, randomDek: Secret)
    requires HistoryInv(kms, h)
    ensures var (h', dek) := EnsureDek(kms, h, a, c, randomKek, randomDek);
            dek.Some? && h'.rows == h.rows && h'.conversations.Keys == h.conversations.Keys
  {
    if Keyed(h, a, c) {
      assert KeyInv(kms, h, c);
    } else {
      EnsureKekKeeps(kms, h, a, randomKek);
    }
  }

  predicate ByOwner(h: History, a: Account, c: ConversationId) {
    c in h.conversations && h.conversations[c].dek.Some? ==> h.conversations[c].account == Some(a)
  }

  /** Keying `c` for `a` strands no message: `a` owns the key there is, or nothing is sealed under it. */
  predicate MayKey(h: History, a: Account, c: ConversationId) {
    ByOwner(h, a, c) || forall r | r in h.rows :: r.conversation != c
  }

  lemma EnsureDekKeeps(kms: Kms, h: History, a: Account, c: ConversationId, randomKek: Secret, randomDek: Secret)
    requires HistoryInv(kms, h) && MayKey(h, a, c)
    ensures var (h', dek) := EnsureDek(kms, h, a, c, randomKek, randomDek);
            && HistoryInv(kms, h') && h'.rows == h.rows && dek.Some?
            && h'.conversations.Keys == h.conversations.Keys
            && (c in h.conversations ==> Keyed(h', a, c) && OpenDek(kms, h', a, c) == dek)
            && (Keyed(h, a, c) ==> h' == h)
  {
    if Keyed(h, a, c) {
      assert KeyInv(kms, h, c);
    } else {
      EnsureKekKeeps(kms, h, a, randomKek);
      var (h1, kek) := EnsureKek(kms, h, a, randomKek);
      var h' := EnsureDek(kms, h, a, c, randomKek, randomDek).0;
      forall k | k in h'.conversations ensures KeyInv(kms, h', k) {
        if k != c { assert KeyInv(kms, h1, k); }
      }
      forall r | r in h'.rows ensures SealedInPlace(kms, h', r) {
        assert SealedInPlace(kms, h1, r);
      }
    }
  }

  // ---------------------------------------------------------------- transcripts

  /** The rows of one conversation in the order they were accepted. */
  function RowsOf(rows: Rows, c: ConversationId): Rows {
    if rows == [] then []
    else RowsOf(rows[..|rows| - 1], c) + (if rows[|rows| - 1].conversation == c then [rows[|rows| - 1]] else [])
  }

  lemma {:induction false} RowsOfNumbered(rows: Rows, c: ConversationId)
    requires RowsInv(rows)
    ensures |RowsOf(rows, c)| == CountIn(rows, c)
    ensures forall k | 0 <= k < |RowsOf(rows, c)| ::
              RowsOf(rows, c)[k].sequence == k + 1 && RowsOf(rows, c)[k].conversation == c && RowsOf(rows, c)[k] in rows
  {
    if rows != [] {
      PrefixRowsInv(rows, |rows| - 1);
      RowsOfNumbered(rows[..|rows| - 1], c);
      assert NumberedAt(rows, |rows| - 1);
      assert rows == rows[..|rows| - 1] + [rows[|rows| - 1]];
    }
  }

  lemma RowsEndAt(rows: Rows, c: ConversationId, after: nat)
    requires RowsInv(rows) && after >= CountIn(rows, c)
    ensures forall r | r in rows && r.conversation == c :: r.sequence <= after
  {
    forall r | r in rows && r.conversation == c ensures r.sequence <= after {
      assert HasSequence(rows, c, r.sequence);
      SequencesExact(rows, c, r.sequence);
    }
  }

  ghost predicate OneAccount(rows: Rows, c: ConversationId, a: Account) {
    forall r | r in rows && r.conversation == c :: r.account == a
  }

  lemma NextRow(rows: Rows, c: ConversationId, a: Account, after: nat)
    requires RowsInv(rows) && OneAccount(rows, c, a)
    ensures var all := RowsOf(rows, c);
            FirstAfter(rows, c, a, after) == if after < |all| then Some(all[after]) else None
  {
    var all := RowsOf(rows, c);
    RowsOfNumbered(rows, c);
    FirstAfterIsLeast(rows, c, a, after);
    var first := FirstAfter(rows, c, a, after);
    if after < |all| {
      assert Matches(all[after], c, a, after);
      SameRow(rows, first.value, all[after]);
    } else {
      RowsEndAt(rows, c, after);
    }
  }

  function SliceOf(all: Rows, after: nat, limit: nat): Rows {
    if after >= |all| then [] else all[after..Min(|all|, after + limit)]
  }

  lemma SliceStep(all: Rows, after: nat, limit: nat)
    requires after < |all| && limit > 0
    ensures SliceOf(all, after, limit) == [all[after]] + SliceOf(all, after + 1, limit - 1)
  {
  }

  /** A page of the database is a slice of the transcript. */
  lemma {:induction false} QueryIsSlice(rows: Rows, c: ConversationId, a: Account, after: nat, limit: nat)
    requires RowsInv(rows) && OneAccount(rows, c, a)
    ensures Query(rows, c, a, after, limit) == SliceOf(RowsOf(rows, c), after, limit)
    decreases limit
  {
    NextRow(rows, c, a, after);
    var all := RowsOf(rows, c);
    if limit > 0 && after < |all| {
      RowsOfNumbered(rows, c);
      QueryIsSlice(rows, c, a, after + 1, limit - 1);
      SliceStep(all, after, limit);
    }
  }

  // ---------------------------------------------------------------- whole runs of one owner's calls

  datatype Op = NewConversation(conversation: ConversationId, owner: Option<Account>)
              | Ensure(account: Account, random: Secret)
              | Bump(account: Account, random: Secret)
              | Send(message: Append)

  predicate Allowed(h: History, op: Op) {
    match op
    case NewConversation(c, _) => c !in h.conversations
    case Send(m) => MayKey(h, m.account, m.conversation)
    case _ => true
  }

  /** Keys may be made and rotated at any time. */
  lemma KeysAnyTime(h: History, a: Account, random: Secret)
    ensures Allowed(h, Ensure(a, random)) && Allowed(h, Bump(a, random))
  {
  }

  function Apply(kms: Kms, h: History, op: Op): History {
    match op
    case NewConversation(c, a) => h.(conversations := h.conversations[c := Conversation(a, false, None, 0)])
    case Ensure(a, random) => EnsureKek(kms, h, a, random).0
    case Bump(a, random) => BumpKek(kms, h, a, random).0
    case Send(m) => AppendStep(kms, h, m).0
  }

  /** What the sender of `op`, if any, was told was newly appended to `c`. */
  function AcceptedBy(kms: Kms, h: History, op: Op, c: ConversationId): seq<(string, string)> {
    if op.Send? && op.message.conversation == c && AppendStep(kms, h, op.message).1.Appended?
    then [(op.message.role, op.message.text)] else []
  }

  function Accepted(kms: Kms, h: History, ops: seq<Op>, c: ConversationId): seq<(string, string)>
    decreases |ops|
  {
    if ops == [] then []
    else AcceptedBy(kms, h, ops[0], c) + Accepted(kms, Apply(kms, h, ops[0]), ops[1..], c)
  }

  function Run(kms: Kms, h: History, ops: seq<Op>): History
    decreases |ops|
  {
    if ops == [] then h else Run(kms, Apply(kms, h, ops[0]), ops[1..])
  }

  predicate AllAllowed(kms: Kms, h: History, ops: seq<Op>)
    decreases |ops|
  {
    ops == [] || (Allowed(h, ops[0]) && AllAllowed(kms, Apply(kms, h, ops[0]), ops[1..]))
  }

  /** The plaintext that a row was sealed from. */
  function PlainOf(r: Row): (string, string) {
    (r.role, if r.ciphertext.plain.Message? then r.ciphertext.plain.text else "")
  }

  function Transcript(rows: Rows, c: ConversationId): seq<(string, string)> {
    seq(|RowsOf(rows, c)|, k requires 0 <= k < |RowsOf(rows, c)| => PlainOf(RowsOf(rows, c)[k]))
  }

  lemma RowSealed(kms: Kms, h: History, m: Append)
    requires HistoryInv(kms, h) && MayKey(h, m.account, m.conversation)
    ensures var (h', result) := AppendStep(kms, h, m);
            && HistoryInv(kms, h')
            && h'.rows == h.rows + (if result.Appended? then [h'.rows[|h.rows|]] else [])
            && (result.Appended? ==> |h'.rows| == |h.rows| + 1 && h'.rows[|h.rows|].conversation == m.conversation
                                     && PlainOf(h'.rows[|h.rows|]) == (m.role, m.text))
  {
    EnsureDekKeeps(kms, h, m.account, m.conversation, m.randomKek, m.randomDek);
    var (h1, dek) := EnsureDek(kms, h, m.account, m.conversation, m.randomKek, m.randomDek);
    var (h', result) := AppendStep(kms, h, m);
    if result.Appended? {
      var row := h'.rows[|h.rows|];
      AppendKeepsRows(h1.rows, row);
      forall r | r in h'.rows ensures SealedInPlace(kms, h', r) {
        if r in h1.rows { assert SealedInPlace(kms, h1, r); }
      }
      forall c | c in h'.conversations ensures KeyInv(kms, h', c) {
        assert KeyInv(kms, h1, c);
      }
    }
  }

  lemma StrandsRow(kms: Kms, h: History, m: Append, r: Row)
    requires HistoryInv(kms, h) && !ByOwner(h, m.account, m.conversation) && !AppendStep(kms, h, m).1.Replayed?
    requires r in h.rows && r.conversation == m.conversation
    ensures r in AppendStep(kms, h, m).0.rows && !SealedInPlace(kms, AppendStep(kms, h, m).0, r)
  {
    assert SealedInPlace(kms, h, r);
    DekAlwaysOpens(kms, h, m.account, m.conversation, m.randomKek, m.randomDek);
    var h1 := EnsureDek(kms, h, m.account, m.conversation, m.randomKek, m.randomDek).0;
    assert h1.conversations[m.conversation].account == Some(m.account);
  }

  /**
   * An append keeps everything readable exactly when it is the owner's, or is answered from its key, or
   * finds the conversation empty: any other account's append rekeys the conversation and leaves
   * every message in it unreadable.
   */
  lemma AppendKeepsIff(kms: Kms, h: History, m: Append)
    requires HistoryInv(kms, h)
    ensures HistoryInv(kms, AppendStep(kms, h, m).0)
            <==> MayKey(h, m.account, m.conversation) || AppendStep(kms, h, m).1.Replayed?
  {
    if MayKey(h, m.account, m.conversation) {
      RowSealed(kms, h, m);
    } else if !AppendStep(kms, h, m).1.Replayed? {
      var r :| r in h.rows && r.conversation == m.conversation;
      StrandsRow(kms, h, m, r);
    }
  }

  lemma ConversationAdded(kms: Kms, h: History, k: ConversationId, a: Option<Account>)
    requires HistoryInv(kms, h) && k !in h.conversations
    ensures HistoryInv(kms, h.(conversations := h.conversations[k := Conversation(a, false, None, 0)]))
  {
    var h' := h.(conversations := h.conversations[k := Conversation(a, false, None, 0)]);
    forall j | j in h'.conversations ensures KeyInv(kms, h', j) {
      if j != k { assert KeyInv(kms, h, j); }
    }
    forall r | r in h'.rows ensures SealedInPlace(kms, h', r) {
      assert SealedInPlace(kms, h, r);
    }
  }

  lemma TranscriptGrows(rows: Rows, row: Row, c: ConversationId)
    ensures Transcript(rows + [row], c) == Transcript(rows, c) + if row.conversation == c then [PlainOf(row)] else []
  {
    assert (rows + [row])[..|rows|] == rows;
  }

  lemma ApplyKeeps(kms: Kms, h: History, op: Op, c: ConversationId)
    requires HistoryInv(kms, h) && Allowed(h, op)
    ensures HistoryInv(kms, Apply(kms, h, op))
    ensures Transcript(Apply(kms, h, op).rows, c) == Transcript(h.rows, c) + AcceptedBy(kms, h, op, c)
  {
    match op
    case NewConversation(k, a) => ConversationAdded(kms, h, k, a);
    case Ensure(a, random) => EnsureKekKeeps(kms, h, a, random);
    case Bump(a, random) => BumpKeeps(kms, h, a, random);
    case Send(m) =>
      RowSealed(kms, h, m);
      var (h', result) := AppendStep(kms, h, m);
      if result.Appended? { TranscriptGrows(h.rows, h'.rows[|h.rows|], c); }
  }

  lemma {:induction false} RunKeeps(kms: Kms, h: History, ops: seq<Op>, c: ConversationId)
    requires HistoryInv(kms, h) && AllAllowed(kms, h, ops)
    ensures HistoryInv(kms, Run(kms, h, ops))
    ensures Transcript(Run(kms, h, ops).rows, c) == Transcript(h.rows, c) + Accepted(kms, h, ops, c)
    decreases |ops|
  {
    if ops != [] {
      ApplyKeeps(kms, h, ops[0], c);
      RunKeeps(kms, Apply(kms, h, ops[0]), ops[1..], c);
    }
  }

  // ---------------------------------------------------------------- reading back

  datatype Listing = Listing(messages: seq<Line>, nextCursor: Option<nat>, latest: nat)

  /** Lines `after + 1, ...` of a transcript. */
  function LinesFrom(transcript: seq<(string, string)>, after: nat, count: nat): seq<Line>
    requires after + count <= |transcript|
  {
    seq(count, k requires 0 <= k < count => Line(after + k + 1, transcript[after + k].0, transcript[after + k].1))
  }

  /** What one page of a conversation should be, given everything said in it. */
  function PageOf(transcript: seq<(string, string)>, after: nat, limit: int): Listing {
    var left := if after >= |transcript| then 0 else |transcript| - after;
    var count := Min(left, Clamp(limit));
    Listing(if count == 0 then [] else LinesFrom(transcript, after, count),
            if left > Clamp(limit) then Some(after + count) else None,
            |transcript|)
  }

  lemma SealedRowOpens(kms: Kms, h: History, a: Account, c: ConversationId, r: Row)
    requires HistoryInv(kms, h) && Keyed(h, a, c) && r in h.rows && r.conversation == c
    ensures r.account == a && OpenDek(kms, h, a, c).Some?
    ensures Decrypt(OpenDek(kms, h, a, c).value, c, r) == Some(Line(r.sequence, PlainOf(r).0, PlainOf(r).1))
  {
    assert SealedInPlace(kms, h, r);
  }

  lemma PageIsSlice(rows: Rows, c: ConversationId, a: Account, after: nat, limit: int)
    requires RowsInv(rows) && OneAccount(rows, c, a)
    ensures var all := RowsOf(rows, c);
            var (page, more) := Page(rows, c, a, after, limit);
            && page == SliceOf(all, after, Clamp(limit))
            && (more <==> after < |all| && |all| - after > Clamp(limit))
  {
    PageIsQuery(rows, c, a, after, limit);
    QueryIsSlice(rows, c, a, after, Clamp(limit));
    QueryIsSlice(rows, c, a, after, Clamp(limit) + 1);
    assert Page(rows, c, a, after, limit).1 <==> |Query(rows, c, a, after, Clamp(limit) + 1)| > Clamp(limit);
  }

  /** The rows a page fetches, as positions of the transcript. */
  lemma PageRows(kms: Kms, h: History, a: Account, c: ConversationId, after: nat, limit: int)
    requires HistoryInv(kms, h) && Keyed(h, a, c)
    ensures var (page, more) := Page(h.rows, c, a, after, limit);
            var want := PageOf(Transcript(h.rows, c), after, limit);
            && |page| == |want.messages|
            && (more <==> want.nextCursor.Some?)
            && (more ==> page != [] && want.nextCursor == Some(page[|page| - 1].sequence))
            && (forall k | 0 <= k < |page| ::
                  page[k] in h.rows && page[k].conversation == c
                  && Line(page[k].sequence, PlainOf(page[k]).0, PlainOf(page[k]).1) == want.messages[k])
  {
    AccountOfRows(kms, h, a, c);
    RowsOfNumbered(h.rows, c);
    PageIsSlice(h.rows, c, a, after, limit);
    var all := RowsOf(h.rows, c);
    SliceLines(all, Transcript(h.rows, c), after, limit);
    forall k | 0 <= k < |SliceOf(all, after, Clamp(limit))|
      ensures SliceOf(all, after, Clamp(limit))[k] in h.rows && SliceOf(all, after, Clamp(limit))[k].conversation == c
    {
      assert SliceOf(all, after, Clamp(limit))[k] == all[after + k];
    }
  }

  lemma AccountOfRows(kms: Kms, h: History, a: Account, c: ConversationId)
    requires HistoryInv(kms, h) && Keyed(h, a, c)
    ensures OneAccount(h.rows, c, a)
  {
    forall r | r in h.rows && r.conversation == c ensures r.account == a {
      SealedRowOpens(kms, h, a, c, r);
    }
  }

  lemma SliceLines(all: Rows, transcript: seq<(string, string)>, after: nat, limit: int)
    requires |all| == |transcript|
    requires forall k | 0 <= k < |all| :: all[k].sequence == k + 1 && PlainOf(all[k]) == transcript[k]
    ensures var page, want := SliceOf(all, after, Clamp(limit)), PageOf(transcript, after, limit);
            && |page| == |want.messages|
            && (forall k | 0 <= k < |page| :: page[k] == all[after + k]
                  && Line(page[k].sequence, PlainOf(page[k]).0, PlainOf(page[k]).1) == want.messages[k])
            && (want.nextCursor.Some? <==> after < |all| && |all| - after > Clamp(limit))
            && (want.nextCursor.Some? ==> page != [] && want.nextCursor == Some(page[|page| - 1].sequence))
  {
  }

  // ---------------------------------------------------------------- an append that leaves a message unreadable

  const HELLO := Append(1, 0, "user", "hello", None, None, 5, 6)
  const FOREIGN := Append(2, 0, "user", "hi", None, None, 7, 8)

  const OPENED := History(map[], map[0 := Conversation(Some(1), false, None, 0)], [])

  lemma FirstHello(kms: Kms)
    ensures var (h, result) := AppendStep(kms, OPENED, HELLO);
            && result == Appended(1) && Keyed(h, 1, 0)
            && |h.rows| == 1 && h.rows[0].conversation == 0 && PlainOf(h.rows[0]) == ("user", "hello")
  {
    assert Epochs(OPENED.keks, 1) == {};
  }

  /** After two allowed calls, an append by a second account leaves the owner without the conversation. */
  lemma ForeignAppendStrands(kms: Kms)
    ensures var h0, ops := History(map[], map[], []), [NewConversation(0, Some(1)), Send(HELLO)];
            var h := Run(kms, h0, ops);
            && AllAllowed(kms, h0, ops) && Keyed(h, 1, 0) && |h.rows| == 1
            && PlainOf(h.rows[0]) == ("user", "hello") && AppendStep(kms, h, FOREIGN).1 == Appended(2)
            && !Keyed(AppendStep(kms, h, FOREIGN).0, 1, 0) && !HistoryInv(kms, AppendStep(kms, h, FOREIGN).0)
  {
    hide HistoryInv, AppendStep;
    var h0, ops := History(map[], map[], []), [NewConversation(0, Some(1)), Send(HELLO)];
    assert ops[1..] == [Send(HELLO)] && [Send(HELLO)][1..] == [];
    assert Apply(kms, h0, ops[0]) == OPENED;
    var h := AppendStep(kms, OPENED, HELLO).0;
    assert Run(kms, OPENED, [Send(HELLO)]) == Run(kms, h, []) == h;
    assert AllAllowed(kms, h, []);
    assert AllAllowed(kms, OPENED, [Send(HELLO)]);
    FirstHello(kms);
    EmptyHistory(kms);
    RunKeeps(kms, h0, ops, 0);
    Rekeyed(kms, h);
    AppendKeepsIff(kms, h, FOREIGN);
    assert h.rows[0] in h.rows;
  }

  lemma EmptyHistory(kms: Kms)
    ensures HistoryInv(kms, History(map[], map[], []))
  {
  }

  lemma Rekeyed(kms: Kms, h: History)
    requires HistoryInv(kms, h) && Keyed(h, 1, 0) && |h.rows| == 1 && h.rows[0].conversation == 0
    ensures AppendStep(kms, h, FOREIGN).1 == Appended(2) && !Keyed(AppendStep(kms, h, FOREIGN).0, 1, 0)
  {
    DekAlwaysOpens(kms, h, 2, 0, 7, 8);
    MaxIsCount(h.rows, 0);
    assert h.rows[..0] == [];
    assert NumberedAt(h.rows, 0);
  }
}
