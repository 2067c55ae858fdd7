// The relay's tables as mutable state. A method returning None stands for a thrown error.
module RelayStore {
  import opened Prelude
  import opened RelayRows
  import opened RelayPaging
  import opened RelayHistory
  import RelayRefinement

  lemma OnlyEpoch(before: Keks, after: Keks, a: Account, wrapped: Sealed)
    requires Epochs(before, a) == {} && after == before[(a, 1) := wrapped]
    ensures forall e | e in Epochs(after, a) :: e == 1
  {
    forall e | e in Epochs(after, a) && e != 1 ensures false {
      EpochListed(before, a, e);
    }
  }

  /** What an append means for transcripts and numbers. */
  lemma AppendedAtEnd(kms: Kms, h: History, m: Append)
    requires HistoryInv(kms, h)
    ensures var (h', result) := AppendStep(kms, h, m);
            && (HistoryInv(kms, h') <==> MayKey(h, m.account, m.conversation) || result.Replayed?)
            && (MayKey(h, m.account, m.conversation) ==>
                  forall c :: Transcript(h'.rows, c)
                                 == Transcript(h.rows, c) + AcceptedBy(kms, h, Send(m), c))
            && (result.Appended? ==> result.sequence == |Transcript(h.rows, m.conversation)| + 1)
  {
    if MayKey(h, m.account, m.conversation) {
      forall c ensures Transcript(AppendStep(kms, h, m).0.rows, c)
                       == Transcript(h.rows, c) + AcceptedBy(kms, h, Send(m), c)
      {
        ApplyKeeps(kms, h, Send(m), c);
      }
    }
    AppendKeepsIff(kms, h, m);
    DekAlwaysOpens(kms, h, m.account, m.conversation, m.randomKek, m.randomDek);
    MaxIsCount(h.rows, m.conversation);
    RowsOfNumbered(h.rows, m.conversation);
  }

  /** Some message of the account already carries the key. */
  ghost predicate KeyHeld(rows: Rows, account: Account, key: Option<Key>) {
    key.Some? && exists r :: r in rows && r.account == account && r.key == key
  }

  /**
   * What an append answers, in terms of what was said before it: a held key is answered with its message's
   * number; otherwise the message is accepted exactly if the conversation is known and the caller expects
   * nothing, or the number of messages there are, or the number the message gets.
   */
  lemma AppendAnswers(kms: Kms, h: History, m: Append)
    requires HistoryInv(kms, h)
    ensures var n, result := |Transcript(h.rows, m.conversation)|, AppendStep(kms, h, m).1;
            && (KeyHeld(h.rows, m.account, m.key) ==>
                  exists r :: r in h.rows && r.account == m.account && r.key == m.key
                              && result == Replayed(r.sequence))
            && (!KeyHeld(h.rows, m.account, m.key) ==>
                  result == if m.conversation in h.conversations
                               && (m.expected == None || m.expected == Some(n) || m.expected == Some(n + 1))
                            then Appended(n + 1) else Thrown)
  {
    hide EnsureDek, Transcript, HistoryInv, SealMessage;
    DekAlwaysOpens(kms, h, m.account, m.conversation, m.randomKek, m.randomDek);
    NumbersOf(kms, h, m.conversation);
    if m.key.Some? { FindKeyFinds(h.rows, m.account, m.key.value); }
    if !KeyHeld(h.rows, m.account, m.key) && m.conversation in h.conversations {
      var (h1, dek) := EnsureDek(kms, h, m.account, m.conversation, m.randomKek, m.randomDek);
      var next := MaxSequence(h.rows, m.conversation) + 1;
      NextFits(kms, h, Row(m.conversation, m.account, next, m.role, SealMessage(dek.value, m, next), m.key));
    }
  }

  lemma NumbersOf(kms: Kms, h: History, c: ConversationId)
    requires HistoryInv(kms, h)
    ensures MaxSequence(h.rows, c) == |Transcript(h.rows, c)|
  {
    MaxIsCount(h.rows, c);
    RowsOfNumbered(h.rows, c);
  }

  lemma NextFits(kms: Kms, h: History, row: Row)
    requires HistoryInv(kms, h) && row.sequence == MaxSequence(h.rows, row.conversation) + 1
    requires row.key.Some? ==> FindKey(h.rows, row.account, row.key.value).None?
    ensures !Conflicts(h.rows, row)
  {
    RelayRefinement.NextNeverConflicts(h.rows, row);
  }

  lemma AppenderIsKeyed(kms: Kms, h: History, m: Append)
    requires HistoryInv(kms, h) && MayKey(h, m.account, m.conversation) && AppendStep(kms, h, m).1.Appended?
    ensures Keyed(AppendStep(kms, h, m).0, m.account, m.conversation)
  {
    EnsureDekKeeps(kms, h, m.account, m.conversation, m.randomKek, m.randomDek);
  }

  class RelayStore {
    const kms: Kms
    var keks: Keks
    var conversations: map<ConversationId, Conversation>
    var rows: Rows

    function Snapshot(): History
      reads this
    {
      History(keks, conversations, rows)
    }

    ghost predicate Valid()
      reads this
    {
      HistoryInv(kms, Snapshot())
    }

    constructor (kms: Kms)
      ensures Valid() && this.kms == kms && Snapshot() == History(map[], map[], [])
    {
      this.kms := kms;
      keks, conversations, rows := map[], map[], [];
    }

    /** The account's latest key, drawn now if it has none. */
    method EnsureAccountKek(a: Account, random: Secret) returns (kek: Option<(nat, Secret)>)
      requires Valid()
      modifies this
      ensures Valid()
      ensures (Snapshot(), kek) == EnsureKek(kms, old(Snapshot()), a, random)
      ensures kek.Some? && (a, kek.value.0) in keks && forall e | e in Epochs(keks, a) :: e <= kek.value.0
    {
      ghost var h := Snapshot();
      EnsureKekKeeps(kms, h, a, random);
      if Epochs(keks, a) != {} {
        kek := OpenKek(kms, keks, a, 0);
      } else {
        ghost var before := keks;
        keks := keks[(a, 1) := WrapKek(kms, a, 1, random)];
        kek := Some((1, random));
        OnlyEpoch(before, keks, a, keks[(a, 1)]);
      }
    }

    /** Rotates the account's key: a new epoch, every earlier one kept. */
    method BumpAccountKekEpoch(a: Account, random: Secret) returns (epoch: Option<nat>)
      requires Valid()
      modifies this
      ensures Valid()
      ensures (Snapshot(), epoch) == BumpKek(kms, old(Snapshot()), a, random)
      ensures epoch.Some? <==> Epochs(old(keks), a) != {}
      ensures epoch.Some? ==> epoch.value == LatestEpoch(old(keks), a) + 1 && (a, epoch.value) in keks
      ensures forall k | k in old(keks) :: k in keks && keks[k] == old(keks)[k]
    {
      BumpKeeps(kms, Snapshot(), a, random);
      var current := OpenKek(kms, keks, a, 0);
      if current.None? || (a, current.value.0 + 1) in keks {
        epoch := None;
      } else {
        keks := keks[(a, current.value.0 + 1) := WrapKek(kms, a, current.value.0 + 1, random)];
        epoch := Some(current.value.0 + 1);
      }
    }

    /** The key that the owner's messages in `c` are under, drawn now if there is none. */
    method EnsureConversationDek(a: Account, c: ConversationId, randomKek: Secret, randomDek: Secret)
      returns (dek: Option<Secret>)
      requires Valid()
      modifies this
      ensures (Snapshot(), dek) == EnsureDek(kms, old(Snapshot()), a, c, randomKek, randomDek)
      ensures dek.Some? && rows == old(rows)
      ensures old(MayKey(Snapshot(), a, c)) ==> Valid()
      ensures old(MayKey(Snapshot(), a, c)) && c in conversations ==>
                Keyed(Snapshot(), a, c) && OpenDek(kms, Snapshot(), a, c) == dek
    {
      ghost var h := Snapshot();
      DekAlwaysOpens(kms, h, a, c, randomKek, randomDek);
      if MayKey(h, a, c) { EnsureDekKeeps(kms, h, a, c, randomKek, randomDek); }
      if c in conversations && conversations[c].account == Some(a) && conversations[c].dek.Some? {
        return OpenDek(kms, Snapshot(), a, c);
      }
      var kek := EnsureAccountKek(a, randomKek);
      if kek.None? { return None; }
      var (epoch, secret) := kek.value;
      if c in conversations {
        var wrapped := Sealed(secret, DekAad(a, c, epoch), KeyBytes(randomDek));
        conversations := conversations[c := Conversation(Some(a), true, Some(wrapped), epoch)];
      }
      dek := Some(randomDek);
    }

    /**
     * For the owner, or in an empty conversation: the message joins the end of its conversation's
     * transcript when it is reported as appended, and no transcript changes otherwise. Anybody else's
     * append breaks the store, unless it is answered from its key.
     */
    method AppendRelayMessage(m: Append) returns (result: AppendResult)
      requires Valid()
      modifies this
      ensures (Snapshot(), result) == AppendStep(kms, old(Snapshot()), m)
      ensures Valid() <==> old(MayKey(Snapshot(), m.account, m.conversation)) || result.Replayed?
      ensures old(MayKey(Snapshot(), m.account, m.conversation)) ==>
                forall c :: Transcript(rows, c)
                            == old(Transcript(rows, c)) + AcceptedBy(kms, old(Snapshot()), Send(m), c)
      ensures !old(KeyHeld(rows, m.account, m.key)) ==>
                var n := old(|Transcript(rows, m.conversation)|);
                result == if m.conversation in old(conversations)
                             && (m.expected == None || m.expected == Some(n) || m.expected == Some(n + 1))
                          then Appended(n + 1) else Thrown
      ensures old(KeyHeld(rows, m.account, m.key)) ==> result.Replayed? && rows == old(rows)
    {
      hide HistoryInv, EnsureDek, Transcript, Conflicts, MaxSequence, FindKey, OpenDek, KeyHeld;
      ghost var h := Snapshot();
      AppendedAtEnd(kms, h, m);
      AppendAnswers(kms, h, m);
      if m.key.Some? {
        var existing := FindKey(rows, m.account, m.key.value);
        if existing.Some? { return Replayed(existing.value.sequence); }
      }
      var dek := EnsureConversationDek(m.account, m.conversation, m.randomKek, m.randomDek);
      var next := MaxSequence(rows, m.conversation) + 1;
      if dek.None? || !ExpectedFits(m.expected, next) || m.conversation !in conversations { return Thrown; }
      var row := Row(m.conversation, m.account, next, m.role, SealMessage(dek.value, m, next), m.key);
      if Conflicts(rows, row) { return Thrown; }
      rows := rows + [row];
      result := Appended(next);
    }

    /**
     * One page for account `a`. For the owner of a keyed conversation it is exactly that page of
     * everything ever said there, decrypted; anybody else is denied.
     */
    method ListRelayMessages(a: Account, c: ConversationId, since: nat, cursor: Option<nat>, limit: int)
      returns (listing: Option<Listing>)
      requires Valid()
      ensures listing ==
              if Keyed(Snapshot(), a, c)
              then Some(PageOf(Transcript(rows, c), Max(since, cursor.GetOr(0)), limit)) else None
    {
      ghost var h := Snapshot();
      assert c in conversations ==> KeyInv(kms, h, c);
      if c !in conversations || conversations[c].account != Some(a) || !conversations[c].relay { return None; }
      if conversations[c].dek.None? { return None; }
      var dek := OpenDek(kms, Snapshot(), a, c);
      if dek.None? { return None; }
      var after := Max(since, cursor.GetOr(0));
      var (slice, more) := Page(rows, c, a, after, limit);
      ghost var want := PageOf(Transcript(rows, c), after, limit);
      PageRows(kms, h, a, c, after, limit);
      var messages: seq<Line> := [];
      for i := 0 to |slice|
        invariant messages == want.messages[..i]
      {
        SealedRowOpens(kms, h, a, c, slice[i]);
        assert want.messages[..i + 1] == want.messages[..i] + [want.messages[i]];
        var line := Decrypt(dek.value, c, slice[i]);
        if line.None? { return None; }
        messages := messages + [line.value];
      }
      RowsOfNumbered(rows, c);
      MaxIsCount(rows, c);
      assert want.messages[..|slice|] == want.messages;
      var nextCursor := if more then Some(messages[|messages| - 1].sequence) else None;
      listing := Some(Listing(messages, nextCursor, MaxSequence(rows, c)));
    }
  }

  /** The owner who appends a message and lists from just before it reads that message and no other. */
  method AppendThenList(store: RelayStore, m: Append) returns (result: AppendResult, listing: Option<Listing>)
    requires store.Valid() && MayKey(store.Snapshot(), m.account, m.conversation)
    modifies store
    ensures store.Valid()
    ensures result.Appended? ==>
              listing == Some(Listing([Line(result.sequence, m.role, m.text)], None, result.sequence))
  {
    ghost var h := store.Snapshot();
    result := store.AppendRelayMessage(m);
    if result.Appended? {
      AppenderIsKeyed(store.kms, h, m);
      listing := store.ListRelayMessages(m.account, m.conversation, result.sequence - 1, None, 1);
      assert listing.value.messages == [Line(result.sequence, m.role, m.text)];
    } else {
      listing := None;
    }
  }

  /**
   * After any allowed calls whatsoever, key rotations included, what the owner reads back from any
   * position is exactly what the senders were told was appended, in that order.
   */
  lemma ReadsBackWhatWasAccepted(kms: Kms, ops: seq<Op>, a: Account, c: ConversationId, after: nat, limit: int)
    requires AllAllowed(kms, History(map[], map[], []), ops)
    requires Keyed(Run(kms, History(map[], map[], []), ops), a, c)
    ensures var h := Run(kms, History(map[], map[], []), ops);
            var (page, more) := Page(h.rows, c, a, after, limit);
            var want := PageOf(Accepted(kms, History(map[], map[], []), ops, c), after, limit);
            && |page| == |want.messages| && (more <==> want.nextCursor.Some?)
            && forall k | 0 <= k < |page| ::
                 Decrypt(OpenDek(kms, h, a, c).GetOr(0), c, page[k]) == Some(want.messages[k])
  {
    var h0 := History(map[], map[], []);
    var h := Run(kms, h0, ops);
    RunKeeps(kms, h0, ops, c);
    assert Transcript(h0.rows, c) == [];
    assert Transcript(h.rows, c) == Accepted(kms, h0, ops, c);
    PageRows(kms, h, a, c, after, limit);
    var (page, more) := Page(h.rows, c, a, after, limit);
    forall k | 0 <= k < |page|
      ensures Decrypt(OpenDek(kms, h, a, c).GetOr(0), c, page[k])
              == Some(PageOf(Accepted(kms, h0, ops, c), after, limit).messages[k])
    {
      SealedRowOpens(kms, h, a, c, page[k]);
    }
  }
}
