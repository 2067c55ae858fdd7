// appendRelayMessage run by many workers at once. Reading the idempotency key, reading the maximum
// and inserting are separate statements; only the two unique indexes guard the table.
module RelayAppends {
  import opened Prelude
  import opened RelayRows

  type WorkerId = nat

  /** What a call was given; `seal` encrypts its message under the number it is about to use. */
  datatype Input = Input(
    conversation: ConversationId, account: Account, role: string, seal: nat -> Sealed,
    key: Option<Key>, expected: Option<nat>)

  /** Where an append is between two of its statements. */
  datatype Worker =
    | Fresh(input: Input)                       // about to look the key up
    | Keyless(input: Input)                     // the key is unused so far, about to read the maximum
    | Numbered(input: Input, next: nat)         // about to insert under number `next`
    | Retrying(input: Input)                    // the insert met a conflict, about to look the key up again
    | Returned(input: Input, sequence: nat)
    | Thrown

  datatype Table = Table(rows: Rows, workers: map<WorkerId, Worker>)

  datatype Move = Begin(worker: WorkerId, input: Input) | Advance(worker: WorkerId)

  predicate CanMove(t: Table, m: Move) {
    match m
    case Begin(w, _) => w !in t.workers
    case Advance(w) => w in t.workers && !t.workers[w].Returned? && !t.workers[w].Thrown?
  }

  function NewRow(input: Input, next: nat): Row {
    Row(input.conversation, input.account, next, input.role, input.seal(next), input.key)
  }

  /** The next statement of a worker that saw `rows`, and the rows after it. */
  function Statement(rows: Rows, p: Worker): (Rows, Worker)
    requires !p.Returned? && !p.Thrown?
  {
    match p
    case Fresh(input) =>
      if input.key.None? then (rows, Keyless(input))
      else
        (match FindKey(rows, input.account, input.key.value)
         case Some(r) => (rows, Returned(input, r.sequence))
         case None => (rows, Keyless(input)))
    case Keyless(input) =>
      var next := MaxSequence(rows, input.conversation) + 1;
      (rows, if ExpectedFits(input.expected, next) then Numbered(input, next) else Thrown)
    case Numbered(input, next) =>
      if !Conflicts(rows, NewRow(input, next)) then (rows + [NewRow(input, next)], Returned(input, next))
      else if input.key.Some? then (rows, Retrying(input))
      else (rows, Thrown)
    case Retrying(input) =>
      (match FindKey(rows, input.account, input.key.GetOr(0))
       case Some(r) => (rows, Returned(input, r.sequence))
       case None => (rows, Thrown))
  }

  function MoveBy(t: Table, m: Move): Table
    requires CanMove(t, m)
  {
    match m
    case Begin(w, input) => t.(workers := t.workers[w := Fresh(input)])
    case Advance(w) =>
      var (rows, p) := Statement(t.rows, t.workers[w]);
      Table(rows, t.workers[w := p])
  }

  // ---------------------------------------------------------------- the invariant

  /** The row an append reported: its own insert, or the one that already held its key. */
  ghost predicate Reported(rows: Rows, input: Input, sequence: nat) {
    exists r :: r in rows && r.sequence == sequence
                && (r == NewRow(input, sequence)
                    || (input.key.Some? && r.account == input.account && r.key == input.key))
  }

  ghost predicate WorkerInv(rows: Rows, p: Worker) {
    match p
    case Numbered(input, next) => 1 <= next <= MaxSequence(rows, input.conversation) + 1
    case Retrying(input) => input.key.Some?
    case Returned(input, sequence) => Reported(rows, input, sequence)
    case _ => true
  }

  ghost predicate TableInv(t: Table) {
    RowsInv(t.rows) && forall w | w in t.workers :: WorkerInv(t.rows, t.workers[w])
  }

  lemma InsertKeeps(rows: Rows, input: Input, next: nat)
    requires RowsInv(rows) && WorkerInv(rows, Numbered(input, next)) && !Conflicts(rows, NewRow(input, next))
    ensures next == MaxSequence(rows, input.conversation) + 1
    ensures RowsInv(rows + [NewRow(input, next)])
  {
    MaxIsCount(rows, input.conversation);
    if next <= MaxSequence(rows, input.conversation) {
      var i := SequenceTaken(rows, input.conversation, next);
    }
    AppendKeepsRows(rows, NewRow(input, next));
  }

  /** What a worker knows survives appends by others. */
  lemma WorkerStable(rows: Rows, row: Row, p: Worker)
    requires WorkerInv(rows, p)
    ensures WorkerInv(rows + [row], p)
  {
    assert (rows + [row])[..|rows|] == rows;
    if p.Returned? {
      var r :| r in rows && r.sequence == p.sequence
               && (r == NewRow(p.input, p.sequence)
                   || (p.input.key.Some? && r.account == p.input.account && r.key == p.input.key));
      assert r in rows + [row];
    }
  }

  lemma StatementKeeps(rows: Rows, p: Worker)
    requires RowsInv(rows) && WorkerInv(rows, p) && !p.Returned? && !p.Thrown?
    ensures RowsInv(Statement(rows, p).0) && WorkerInv(Statement(rows, p).0, Statement(rows, p).1)
    ensures rows <= Statement(rows, p).0 && |Statement(rows, p).0| <= |rows| + 1
  {
    match p
    case Fresh(input) =>
      if input.key.Some? { FindKeyFinds(rows, input.account, input.key.value); }
    case Keyless(input) =>
    case Numbered(input, next) =>
      if !Conflicts(rows, NewRow(input, next)) {
        InsertKeeps(rows, input, next);
        assert NewRow(input, next) in rows + [NewRow(input, next)];
      }
    case Retrying(input) => FindKeyFinds(rows, input.account, input.key.value);
  }

  lemma MoveKeeps(t: Table, m: Move)
    requires TableInv(t) && CanMove(t, m)
    ensures TableInv(MoveBy(t, m)) && t.rows <= MoveBy(t, m).rows
  {
    if m.Advance? {
      StatementKeeps(t.rows, t.workers[m.worker]);
      var rows := Statement(t.rows, t.workers[m.worker]).0;
      forall w | w in t.workers && w != m.worker ensures WorkerInv(rows, t.workers[w]) {
        if rows != t.rows {
          assert rows == t.rows + [rows[|t.rows|]];
          WorkerStable(t.rows, rows[|t.rows|], t.workers[w]);
        }
      }
    }
  }

  // ---------------------------------------------------------------- every interleaving

  predicate CanPlay(t: Table, moves: seq<Move>)
    decreases |moves|
  {
    moves == [] || (CanMove(t, moves[0]) && CanPlay(MoveBy(t, moves[0]), moves[1..]))
  }

  function Play(t: Table, moves: seq<Move>): Table
    requires CanPlay(t, moves)
    decreases |moves|
  {
    if moves == [] then t else Play(MoveBy(t, moves[0]), moves[1..])
  }

  lemma {:induction false} PlayKeeps(t: Table, moves: seq<Move>)
    requires TableInv(t) && CanPlay(t, moves)
    ensures TableInv(Play(t, moves)) && t.rows <= Play(t, moves).rows
    decreases |moves|
  {
    if moves != [] {
      MoveKeeps(t, moves[0]);
      PlayKeeps(MoveBy(t, moves[0]), moves[1..]);
    }
  }

  /**
   * However the statements of concurrent appends interleave: every conversation's numbers are exactly
   * 1..n, each used once; at most one row carries a given (account, key); and an append that returns
   * has reported its own row or the row holding its key.
   */
  lemma AppendsStayDense(moves: seq<Move>, c: ConversationId, k: nat)
    requires CanPlay(Table([], map[]), moves)
    ensures var t := Play(Table([], map[]), moves);
            && (1 <= k <= CountIn(t.rows, c) <==> HasSequence(t.rows, c, k))
            && (forall i, j | 0 <= i < j < |t.rows| && t.rows[i].conversation == t.rows[j].conversation ::
                  t.rows[i].sequence < t.rows[j].sequence)
            && (forall i, j | 0 <= i < j < |t.rows| ::
                  t.rows[i].key.Some? && t.rows[i].account == t.rows[j].account ==> t.rows[i].key != t.rows[j].key)
            && (forall w | w in t.workers && t.workers[w].Returned? ::
                  Reported(t.rows, t.workers[w].input, t.workers[w].sequence))
  {
    PlayKeeps(Table([], map[]), moves);
    var t := Play(Table([], map[]), moves);
    SequencesExact(t.rows, c, k);
    forall i, j | 0 <= i < j < |t.rows| && t.rows[i].conversation == t.rows[j].conversation
      ensures t.rows[i].sequence < t.rows[j].sequence
    {
      SequencesDistinct(t.rows, i, j);
    }
    forall w | w in t.workers && t.workers[w].Returned?
      ensures Reported(t.rows, t.workers[w].input, t.workers[w].sequence)
    {
      assert WorkerInv(t.rows, t.workers[w]);
    }
  }
}
