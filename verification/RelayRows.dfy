// Rows of cs_relay_messages, their two unique indexes, and `order by sequence asc limit n`.
module RelayRows {
  import opened Prelude

  type Account = nat
  type ConversationId = nat
  type Secret = nat
  type Key = nat

  // ---------------------------------------------------------------- symbolic authenticated encryption

  /** The associated data each of the three kinds of ciphertext is bound to. */
  datatype Aad =
    | KekAad(account: Account, epoch: nat, kmsKey: string)
    | DekAad(account: Account, conversation: ConversationId, epoch: nat)
    | MessageAad(conversation: ConversationId, sequence: nat, role: string)

  datatype Plain = KeyBytes(secret: Secret) | Message(role: string, text: string)

  datatype Sealed = Sealed(key: Secret, aad: Aad, plain: Plain)

  /** Opening succeeds exactly under the sealing key and associated data. */
  function Open(key: Secret, aad: Aad, c: Sealed): Option<Plain> {
    if c.key == key && c.aad == aad then Some(c.plain) else None
  }

  // ---------------------------------------------------------------- rows

  datatype Row = Row(
    conversation: ConversationId, account: Account, sequence: nat, role: string, ciphertext: Sealed, key: Option<Key>)

  type Rows = seq<Row>

  function CountIn(rows: Rows, c: ConversationId): nat {
    if rows == [] then 0 else CountIn(rows[..|rows| - 1], c) + (if rows[|rows| - 1].conversation == c then 1 else 0)
  }

  /** `coalesce(max(sequence), 0)` of a conversation. */
  function MaxSequence(rows: Rows, c: ConversationId): nat {
    if rows == [] then 0
    else
      var before := MaxSequence(rows[..|rows| - 1], c);
      var last := rows[|rows| - 1];
      if last.conversation == c && last.sequence > before then last.sequence else before
  }

  function FindKey(rows: Rows, account: Account, key: Key): Option<Row> {
    if rows == [] then None
    else if rows[0].account == account && rows[0].key == Some(key) then Some(rows[0])
    else FindKey(rows[1..], account, key)
  }

  /** `on conflict do nothing` over both unique indexes. */
  predicate Conflicts(rows: Rows, row: Row) {
    (exists i | 0 <= i < |rows| :: rows[i].conversation == row.conversation && rows[i].sequence == row.sequence)
    || (row.key.Some? && exists i | 0 <= i < |rows| :: rows[i].account == row.account && rows[i].key == row.key)
  }

  /** In insertion order each row is numbered by how many rows its conversation then had, and keys are unique. */
  ghost predicate NumberedAt(rows: Rows, i: nat)
    requires i < |rows|
  {
    rows[i].sequence == CountIn(rows[..i], rows[i].conversation) + 1
  }

  ghost predicate RowsInv(rows: Rows) {
    && (forall i: nat | i < |rows| :: NumberedAt(rows, i))
    && (forall i, j | 0 <= i < j < |rows| ::
          rows[i].key.Some? && rows[i].account == rows[j].account ==> rows[i].key != rows[j].key)
  }

  lemma PrefixRowsInv(rows: Rows, n: nat)
    requires RowsInv(rows) && n <= |rows|
    ensures RowsInv(rows[..n])
  {
    forall i: nat | i < n ensures NumberedAt(rows[..n], i) {
      assert NumberedAt(rows, i) && rows[..n][..i] == rows[..i];
    }
  }

  lemma {:induction false} CountMonotone(rows: Rows, c: ConversationId, i: nat)
    requires i <= |rows|
    ensures CountIn(rows[..i], c) <= CountIn(rows, c)
    ensures i < |rows| && rows[i].conversation == c ==> CountIn(rows[..i], c) < CountIn(rows, c)
    decreases |rows|
  {
    if i < |rows| {
      assert rows[..|rows| - 1][..i] == rows[..i];
      CountMonotone(rows[..|rows| - 1], c, i);
    } else {
      assert rows[..i] == rows;
    }
  }

  /** The maximum and the count of a conversation coincide: its sequences are exactly 1..n. */
  lemma {:induction false} MaxIsCount(rows: Rows, c: ConversationId)
    requires RowsInv(rows)
    ensures MaxSequence(rows, c) == CountIn(rows, c)
  {
    if rows != [] {
      PrefixRowsInv(rows, |rows| - 1);
      assert NumberedAt(rows, |rows| - 1);
      MaxIsCount(rows[..|rows| - 1], c);
    }
  }

  ghost predicate HasSequence(rows: Rows, c: ConversationId, k: nat) {
    exists r :: r in rows && r.conversation == c && r.sequence == k
  }

  lemma {:induction false} SequenceTaken(rows: Rows, c: ConversationId, k: nat) returns (i: nat)
    requires RowsInv(rows) && 1 <= k <= CountIn(rows, c)
    ensures i < |rows| && rows[i].conversation == c && rows[i].sequence == k
  {
    var n := |rows| - 1;
    PrefixRowsInv(rows, n);
    assert NumberedAt(rows, n);
    if k <= CountIn(rows[..n], c) {
      i := SequenceTaken(rows[..n], c, k);
      assert rows[..n][i] == rows[i];
    } else {
      i := n;
    }
  }

  lemma SequencesExact(rows: Rows, c: ConversationId, k: nat)
    requires RowsInv(rows)
    ensures 1 <= k <= CountIn(rows, c) <==> HasSequence(rows, c, k)
  {
    if 1 <= k <= CountIn(rows, c) {
      var i := SequenceTaken(rows, c, k);
      assert rows[i] in rows;
    }
    if HasSequence(rows, c, k) {
      var r :| r in rows && r.conversation == c && r.sequence == k;
      var i :| 0 <= i < |rows| && rows[i] == r;
      assert NumberedAt(rows, i);
      CountMonotone(rows, c, i);
    }
  }

  /** No two rows of a conversation share a number. */
  lemma SequencesDistinct(rows: Rows, i: nat, j: nat)
    requires RowsInv(rows) && i < j < |rows| && rows[i].conversation == rows[j].conversation
    ensures rows[i].sequence < rows[j].sequence
  {
    var c := rows[i].conversation;
    assert NumberedAt(rows, i) && NumberedAt(rows, j);
    CountMonotone(rows[..j], c, i);
    assert rows[..j][..i] == rows[..i] && rows[..j][i] == rows[i];
  }

  /** Numbering a new row max + 1 keeps the rows well numbered, unless an index rejects it. */
  lemma AppendKeepsRows(rows: Rows, row: Row)
    requires RowsInv(rows) && !Conflicts(rows, row) && row.sequence == MaxSequence(rows, row.conversation) + 1
    ensures RowsInv(rows + [row])
  {
    MaxIsCount(rows, row.conversation);
    var rows' := rows + [row];
    forall i: nat | i < |rows'| ensures NumberedAt(rows', i) {
      assert rows'[..i] == rows[..i];
      if i == |rows| { assert rows[..i] == rows; } else { assert NumberedAt(rows, i); }
    }
  }

  lemma {:induction false} FindKeyFinds(rows: Rows, account: Account, key: Key)
    ensures FindKey(rows, account, key).None? ==>
              forall i | 0 <= i < |rows| :: !(rows[i].account == account && rows[i].key == Some(key))
    ensures FindKey(rows, account, key).Some? ==>
              FindKey(rows, account, key).value in rows && FindKey(rows, account, key).value.account == account
              && FindKey(rows, account, key).value.key == Some(key)
  {
    if rows != [] {
      FindKeyFinds(rows[1..], account, key);
      assert rows == [rows[0]] + rows[1..];
    }
  }

  /** `expectedSequence` may name the current maximum or the number about to be used. */
  predicate ExpectedFits(expected: Option<nat>, next: nat) {
    expected.None? || expected.value + 1 == next || expected.value == next
  }

  // ---------------------------------------------------------------- select ... order by sequence asc limit n

  predicate Matches(r: Row, c: ConversationId, account: Account, after: nat) {
    r.conversation == c && r.account == account && r.sequence > after
  }

  /** The matching row with the least sequence. */
  function FirstAfter(rows: Rows, c: ConversationId, account: Account, after: nat): Option<Row> {
    if rows == [] then None
    else
      var first := FirstAfter(rows[..|rows| - 1], c, account, after);
      var last := rows[|rows| - 1];
      if Matches(last, c, account, after) && (first.None? || last.sequence < first.value.sequence)
      then Some(last) else first
  }

  lemma {:induction false} FirstAfterIsLeast(rows: Rows, c: ConversationId, account: Account, after: nat)
    ensures var f := FirstAfter(rows, c, account, after);
            && (f.Some? ==> f.value in rows && Matches(f.value, c, account, after))
            && (forall r | r in rows && Matches(r, c, account, after) :: f.Some? && f.value.sequence <= r.sequence)
  {
    if rows != [] {
      var n := |rows| - 1;
      FirstAfterIsLeast(rows[..n], c, account, after);
      assert rows == rows[..n] + [rows[n]];
    }
  }

  function Query(rows: Rows, c: ConversationId, account: Account, after: nat, limit: nat): (page: seq<Row>)
    ensures |page| <= limit
    decreases limit
  {
    if limit == 0 then []
    else
      var first := FirstAfter(rows, c, account, after);
      if first.None? then []
      else [first.value] + Query(rows, c, account, first.value.sequence, limit - 1)
  }

  /** Strictly ascending from above `after`: each message once, in order. */
  ghost predicate AscendingAfter(page: seq<Row>, after: nat) {
    (forall i | 0 <= i < |page| :: after < page[i].sequence)
    && (forall i, j | 0 <= i < j < |page| :: page[i].sequence < page[j].sequence)
  }

  /** Where a reader stands after a page. */
  function CursorAfter(page: seq<Row>, after: nat): nat {
    if page == [] then after else page[|page| - 1].sequence
  }

  lemma {:induction false} QuerySound(rows: Rows, c: ConversationId, account: Account, after: nat, limit: nat)
    ensures var page := Query(rows, c, account, after, limit);
            AscendingAfter(page, after) && forall r | r in page :: r in rows && Matches(r, c, account, after)
    decreases limit
  {
    FirstAfterIsLeast(rows, c, account, after);
    var first := FirstAfter(rows, c, account, after);
    if limit > 0 && first.Some? {
      QuerySound(rows, c, account, first.value.sequence, limit - 1);
    }
  }

  /** A page shorter than its limit misses no matching row; a full one misses none up to its cursor. */
  lemma {:induction false} QueryComplete(rows: Rows, c: ConversationId, account: Account, after: nat, limit: nat,
                                         r: Row)
    requires RowsInv(rows) && r in rows && Matches(r, c, account, after)
    requires limit > 0
    requires var page := Query(rows, c, account, after, limit);
             |page| < limit || r.sequence <= CursorAfter(page, after)
    ensures r in Query(rows, c, account, after, limit)
    decreases limit
  {
    FirstAfterIsLeast(rows, c, account, after);
    var first := FirstAfter(rows, c, account, after).value;
    var rest := Query(rows, c, account, first.sequence, limit - 1);
    assert Query(rows, c, account, after, limit) == [first] + rest;
    if r.sequence == first.sequence {
      SameRow(rows, r, first);
    } else {
      assert rest != [] ==> ([first] + rest)[|rest|] == rest[|rest| - 1];
      QueryComplete(rows, c, account, first.sequence, limit - 1, r);
    }
  }

  lemma SameRow(rows: Rows, a: Row, b: Row)
    requires RowsInv(rows) && a in rows && b in rows
    requires a.conversation == b.conversation && a.sequence == b.sequence
    ensures a == b
  {
    var i :| 0 <= i < |rows| && rows[i] == a;
    var j :| 0 <= j < |rows| && rows[j] == b;
    if i < j { SequencesDistinct(rows, i, j); }
    if j < i { SequencesDistinct(rows, j, i); }
  }

  /** A page that fell short is all there is. */
  lemma {:induction false} ShortPageIsAll(rows: Rows, c: ConversationId, account: Account, after: nat, m: nat, n: nat)
    requires |Query(rows, c, account, after, m)| < m
    ensures Query(rows, c, account, after, m + n) == Query(rows, c, account, after, m)
    decreases m
  {
    var first := FirstAfter(rows, c, account, after);
    if first.Some? {
      ShortPageIsAll(rows, c, account, first.value.sequence, m - 1, n);
    }
  }

  /** A full page and the page after its cursor are one longer page. */
  lemma {:induction false} FullPageContinues(rows: Rows, c: ConversationId, account: Account, after: nat, m: nat,
                                             n: nat)
    requires |Query(rows, c, account, after, m)| == m
    ensures var page := Query(rows, c, account, after, m);
            Query(rows, c, account, after, m + n) == page + Query(rows, c, account, CursorAfter(page, after), n)
    decreases m
  {
    var page := Query(rows, c, account, after, m);
    if m == 0 {
      assert page + Query(rows, c, account, after, n) == Query(rows, c, account, after, n);
    } else {
      var first := FirstAfter(rows, c, account, after).value;
      var rest := page[1..];
      assert page == [first] + rest && rest == Query(rows, c, account, first.sequence, m - 1);
      FullPageContinues(rows, c, account, first.sequence, m - 1, n);
      var more := Query(rows, c, account, CursorAfter(rest, first.sequence), n);
      assert CursorAfter(page, after) == CursorAfter(rest, first.sequence);
      assert [first] + (rest + more) == page + more;
    }
  }

  /** Two pages in a row are one longer page. */
  lemma QuerySplits(rows: Rows, c: ConversationId, account: Account, after: nat, m: nat, n: nat)
    ensures var page := Query(rows, c, account, after, m);
            Query(rows, c, account, after, m + n) ==
            if |page| < m then page else page + Query(rows, c, account, CursorAfter(page, after), n)
  {
    if |Query(rows, c, account, after, m)| < m {
      ShortPageIsAll(rows, c, account, after, m, n);
    } else {
      FullPageContinues(rows, c, account, after, m, n);
    }
  }

  // ---------------------------------------------------------------- rows that only grow

  lemma NewRowsAreLater(rows: Rows, rows': Rows, earlier: Row, r: Row)
    requires RowsInv(rows') && rows <= rows' && earlier in rows && r in rows' && r !in rows
    requires earlier.conversation == r.conversation
    ensures earlier.sequence < r.sequence
  {
    var i :| 0 <= i < |rows| && rows[i] == earlier;
    var j :| 0 <= j < |rows'| && rows'[j] == r;
    SequencesDistinct(rows', i, j);
  }

  lemma FirstAfterStable(rows: Rows, rows': Rows, c: ConversationId, account: Account, after: nat)
    requires RowsInv(rows') && rows <= rows' && FirstAfter(rows, c, account, after).Some?
    ensures FirstAfter(rows', c, account, after) == FirstAfter(rows, c, account, after)
  {
    FirstAfterIsLeast(rows, c, account, after);
    FirstAfterIsLeast(rows', c, account, after);
    var a, b := FirstAfter(rows, c, account, after).value, FirstAfter(rows', c, account, after).value;
    if b !in rows { NewRowsAreLater(rows, rows', a, b); }
    SameRow(rows', a, b);
  }

  /** Appends only ever lengthen what a query returns. */
  lemma {:induction false} QueryGrows(rows: Rows, rows': Rows, c: ConversationId, account: Account, after: nat,
                                      limit: nat)
    requires RowsInv(rows') && rows <= rows'
    ensures Query(rows, c, account, after, limit) <= Query(rows', c, account, after, limit)
    decreases limit
  {
    var first := FirstAfter(rows, c, account, after);
    if limit > 0 && first.Some? {
      FirstAfterStable(rows, rows', c, account, after);
      QueryGrows(rows, rows', c, account, first.value.sequence, limit - 1);
    }
  }
}
