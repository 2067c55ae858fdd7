// A reader walking a conversation by cursor while others append.
module RelayPaging {
  import opened Prelude
  import opened RelayRows

  /** `Math.min(Math.max(limit, 1), 200)` */
  function Clamp(limit: int): nat
    ensures 1 <= Clamp(limit) <= 200 && (1 <= limit <= 200 ==> Clamp(limit) == limit)
    ensures (limit < 1 ==> Clamp(limit) == 1) && (limit > 200 ==> Clamp(limit) == 200)
  {
    Min(Max(limit, 1), 200)
  }

  /** One page: up to `limit` rows, and whether the extra row fetched says that more follow. */
  function Page(rows: Rows, c: ConversationId, account: Account, after: nat, limit: int): (seq<Row>, bool) {
    var fetched := Query(rows, c, account, after, Clamp(limit) + 1);
    (fetched[..Min(|fetched|, Clamp(limit))], |fetched| > Clamp(limit))
  }

  /** No matching row lies beyond `cursor`. */
  predicate Exhausted(rows: Rows, c: ConversationId, account: Account, cursor: nat) {
    FirstAfter(rows, c, account, cursor).None?
  }

  lemma {:induction false} ShortQueryExhausts(rows: Rows, c: ConversationId, account: Account, after: nat, limit: nat)
    requires |Query(rows, c, account, after, limit)| < limit
    ensures Exhausted(rows, c, account, CursorAfter(Query(rows, c, account, after, limit), after))
    decreases limit
  {
    var first := FirstAfter(rows, c, account, after);
    if first.Some? {
      ShortQueryExhausts(rows, c, account, first.value.sequence, limit - 1);
    }
  }

  /** The extra row fetched tells exactly whether the page was the last one. */
  lemma PageIsQuery(rows: Rows, c: ConversationId, account: Account, after: nat, limit: int)
    ensures var (page, more) := Page(rows, c, account, after, limit);
            && page == Query(rows, c, account, after, Clamp(limit)) == Query(rows, c, account, after, |page|)
            && (more ==> |page| == Clamp(limit))
            && (more <==> !Exhausted(rows, c, account, CursorAfter(page, after)))
  {
    var m := Clamp(limit);
    var short := Query(rows, c, account, after, m);
    QuerySplits(rows, c, account, after, m, 1);
    QuerySplits(rows, c, account, after, |short|, m - |short|);
    if |short| < m {
      ShortQueryExhausts(rows, c, account, after, m);
    } else {
      assert |Query(rows, c, account, CursorAfter(short, after), 1)| == 0
             <==> Exhausted(rows, c, account, CursorAfter(short, after));
    }
  }

  // ---------------------------------------------------------------- the walk

  /** The tables a walk meets, one per page: each the earlier one plus appends. */
  ghost predicate Growing(tables: seq<Rows>) {
    (forall i | 0 <= i < |tables| :: RowsInv(tables[i]))
    && (forall i, j | 0 <= i <= j < |tables| :: tables[i] <= tables[j])
  }

  /** The messages collected, the number of pages read, and whether the last page had no cursor. */
  datatype Walk = Walk(messages: seq<Row>, pages: nat, done: bool)

  /** The reader asks for page i with limit `limits[i]`, and finds the rows `tables[i]`. */
  function Follow(tables: seq<Rows>, limits: seq<int>, c: ConversationId, account: Account, after: nat): (w: Walk)
    requires |limits| == |tables|
    ensures w.pages <= |tables| && (tables != [] ==> w.pages > 0)
    decreases |tables|
  {
    if tables == [] then Walk([], 0, false)
    else
      var (page, more) := Page(tables[0], c, account, after, limits[0]);
      if !more then Walk(page, 1, true)
      else
        var rest := Follow(tables[1..], limits[1..], c, account, CursorAfter(page, after));
        Walk(page + rest.messages, rest.pages + 1, rest.done)
  }

  /** `messages` is an ordered query of `last`, and exhausts it if the walk is done. */
  ghost predicate Collected(last: Rows, c: ConversationId, account: Account, after: nat, messages: seq<Row>,
                            done: bool)
  {
    messages == Query(last, c, account, after, |messages|)
    && (done ==> Exhausted(last, c, account, CursorAfter(messages, after)))
  }

  lemma CursorJoins(page: seq<Row>, rest: seq<Row>, after: nat)
    ensures CursorAfter(page + rest, after) == CursorAfter(rest, CursorAfter(page, after))
  {
    if rest == [] { assert page + rest == page; }
  }

  lemma CollectedJoins(first: Rows, last: Rows, c: ConversationId, account: Account, after: nat,
                       page: seq<Row>, rest: seq<Row>, m: nat, n: nat, done: bool)
    requires RowsInv(last) && first <= last && |page| == m && |rest| == n
    requires page == Query(first, c, account, after, m)
    requires Collected(last, c, account, CursorAfter(page, after), rest, done)
    ensures Collected(last, c, account, after, page + rest, done)
  {
    QueryGrows(first, last, c, account, after, m);
    assert Query(last, c, account, after, m) == page;
    QuerySplits(last, c, account, after, m, n);
    CursorJoins(page, rest, after);
    assert |page + rest| == m + n;
  }

  lemma GrowingTail(tables: seq<Rows>, k: nat)
    requires Growing(tables) && 0 < k < |tables|
    ensures Growing(tables[1..]) && tables[1..][k - 1] == tables[k]
    ensures RowsInv(tables[k]) && tables[0] <= tables[k]
  {
  }

  lemma {:induction false} FollowCollects(tables: seq<Rows>, limits: seq<int>, c: ConversationId, account: Account,
                                          after: nat)
    requires |limits| == |tables| && Growing(tables) && tables != []
    ensures var w := Follow(tables, limits, c, account, after);
            Collected(tables[w.pages - 1], c, account, after, w.messages, w.done)
    decreases |tables|
  {
    var (page, more) := Page(tables[0], c, account, after, limits[0]);
    PageIsQuery(tables[0], c, account, after, limits[0]);
    if more && |tables| > 1 {
      var cursor := CursorAfter(page, after);
      var rest := Follow(tables[1..], limits[1..], c, account, cursor);
      GrowingTail(tables, rest.pages);
      FollowCollects(tables[1..], limits[1..], c, account, cursor);
      CollectedJoins(tables[0], tables[rest.pages], c, account, after, page, rest.messages,
                     |page|, |rest.messages|, rest.done);
    } else {
      assert page + [] == page;
    }
  }

  /**
   * A finished walk, with any limit on each page and any appends between its pages, has returned every
   * message of the last table after its start point, each once and in order, and nothing else.
   */
  lemma WalkReturnsAll(tables: seq<Rows>, limits: seq<int>, c: ConversationId, account: Account, start: nat)
    requires |limits| == |tables| && Growing(tables) && Follow(tables, limits, c, account, start).done
    ensures var w := Follow(tables, limits, c, account, start);
            && AscendingAfter(w.messages, start)
            && (forall r :: r in w.messages <==> r in tables[w.pages - 1] && Matches(r, c, account, start))
  {
    var w := Follow(tables, limits, c, account, start);
    var last := tables[w.pages - 1];
    FollowCollects(tables, limits, c, account, start);
    QuerySound(last, c, account, start, |w.messages|);
    var cursor := CursorAfter(w.messages, start);
    FirstAfterIsLeast(last, c, account, cursor);
    forall r | r in last && Matches(r, c, account, start) ensures r in w.messages {
      assert !Matches(r, c, account, cursor);
      QueryComplete(last, c, account, start, |w.messages|, r);
    }
  }

  lemma {:induction false} WalkProgress(tables: seq<Rows>, limits: seq<int>, c: ConversationId, account: Account,
                                        after: nat)
    requires |limits| == |tables| && !Follow(tables, limits, c, account, after).done
    ensures |Follow(tables, limits, c, account, after).messages| >= |tables|
    ensures Follow(tables, limits, c, account, after).pages == |tables|
    decreases |tables|
  {
    if tables != [] {
      var (page, more) := Page(tables[0], c, account, after, limits[0]);
      PageIsQuery(tables[0], c, account, after, limits[0]);
      WalkProgress(tables[1..], limits[1..], c, account, CursorAfter(page, after));
    }
  }

  lemma {:induction false} AscendingFits(page: seq<Row>, rows: Rows)
    requires RowsInv(rows) && forall i, j | 0 <= i < j < |page| :: page[i].sequence < page[j].sequence
    requires forall r | r in page :: r in rows
    ensures |page| <= |rows|
  {
    var seen := set r | r in page;
    DistinctCount(page, seen);
    var all := set r | r in rows;
    SubsetSize(seen, all);
    SetOfSeq(rows, all);
  }

  lemma {:induction false} DistinctCount(page: seq<Row>, seen: set<Row>)
    requires forall i, j | 0 <= i < j < |page| :: page[i].sequence < page[j].sequence
    requires seen == set r | r in page
    ensures |seen| == |page|
  {
    if page != [] {
      var last := page[|page| - 1];
      var rest := page[..|page| - 1];
      assert page == rest + [last];
      assert last !in rest;
      DistinctCount(rest, seen - {last});
    }
  }

  lemma {:induction false} SetOfSeq(rows: Rows, all: set<Row>)
    requires all == set r | r in rows
    ensures |all| <= |rows|
  {
    if rows != [] {
      var last := rows[|rows| - 1];
      var rest := rows[..|rows| - 1];
      assert rows == rest + [last];
      var before := set r | r in rest;
      SetOfSeq(rest, before);
      assert all == before + {last};
    }
  }

  /**
   * The walk ends once appends stop: if the table never exceeds `bound` rows, the walk is done
   * within `bound + 1` pages.
   */
  lemma WalkTerminates(tables: seq<Rows>, limits: seq<int>, c: ConversationId, account: Account, start: nat, bound: nat)
    requires |limits| == |tables| && Growing(tables)
    requires |tables| > bound && forall i | 0 <= i < |tables| :: |tables[i]| <= bound
    ensures Follow(tables, limits, c, account, start).done
  {
    var w := Follow(tables, limits, c, account, start);
    if !w.done {
      WalkProgress(tables, limits, c, account, start);
      FollowCollects(tables, limits, c, account, start);
      var last := tables[w.pages - 1];
      QuerySound(last, c, account, start, |w.messages|);
      AscendingFits(w.messages, last);
    }
  }
}
