// An append whose statements nobody interrupts is the single step the encrypted history takes.
module RelayRefinement {
  import opened Prelude
  import opened RelayRows
  import A = RelayAppends
  import opened RelayHistory

  /** How many statements a worker may still have to run. */
  function Left(p: A.Worker): nat {
    match p
    case Fresh(_) => 4
    case Keyless(_) => 3
    case Numbered(_, _) => 2
    case Retrying(_) => 1
    case _ => 0
  }

  /** All the statements of one worker in a row. */
  function Alone(rows: Rows, p: A.Worker): (Rows, A.Worker)
    decreases Left(p)
  {
    if p.Returned? || p.Thrown? then (rows, p)
    else
      var (rows', p') := A.Statement(rows, p);
      Alone(rows', p')
  }

  /** The call `m` as a worker starts it, once its conversation key is `dek`. */
  function InputOf(m: Append, dek: Secret): A.Input {
    A.Input(m.conversation, m.account, m.role, (next: nat) => SealMessage(dek, m, next), m.key, m.expected)
  }

  /** Numbered after the maximum and with an unused key, a row meets neither index. */
  lemma NextNeverConflicts(rows: Rows, row: Row)
    requires RowsInv(rows) && row.sequence == MaxSequence(rows, row.conversation) + 1
    requires row.key.Some? ==> FindKey(rows, row.account, row.key.value).None?
    ensures !Conflicts(rows, row)
  {
    MaxIsCount(rows, row.conversation);
    SequencesExact(rows, row.conversation, row.sequence);
    if row.key.Some? { FindKeyFinds(rows, row.account, row.key.value); }
    forall i | 0 <= i < |rows| && rows[i].conversation == row.conversation
      ensures rows[i].sequence != row.sequence
    {
      assert rows[i] in rows;
    }
  }

  /** From the insert on, a worker whose number and key are free is done at once. */
  lemma InsertsAlone(rows: Rows, input: A.Input)
    requires RowsInv(rows)
    requires input.key.Some? ==> FindKey(rows, input.account, input.key.value).None?
    ensures var next := MaxSequence(rows, input.conversation) + 1;
            && !Conflicts(rows, A.NewRow(input, next))
            && Alone(rows, A.Keyless(input))
               == if ExpectedFits(input.expected, next)
                  then (rows + [A.NewRow(input, next)], A.Returned(input, next)) else (rows, A.Thrown)
  {
    hide RowsInv, Conflicts, MaxSequence, FindKey, ExpectedFits;
    var next := MaxSequence(rows, input.conversation) + 1;
    NextNeverConflicts(rows, A.NewRow(input, next));
    if ExpectedFits(input.expected, next) {
      var row := A.NewRow(input, next);
      assert A.Statement(rows, A.Keyless(input)) == (rows, A.Numbered(input, next));
      assert A.Statement(rows, A.Numbered(input, next)) == (rows + [row], A.Returned(input, next));
      assert Alone(rows + [row], A.Returned(input, next)) == (rows + [row], A.Returned(input, next));
      assert Alone(rows, A.Keyless(input)) == Alone(rows, A.Numbered(input, next));
    }
  }

  /**
   * Run without interruption, the separate statements leave the rows and give the answer that
   * AppendStep does: the same row under the same number, the same replay, the same refusal.
   */
  lemma AloneIsAppendStep(kms: Kms, h: History, m: Append)
    requires HistoryInv(kms, h) && m.conversation in h.conversations
    ensures var (h1, dek) := EnsureDek(kms, h, m.account, m.conversation, m.randomKek, m.randomDek);
            var (h', result) := AppendStep(kms, h, m);
            && dek.Some?
            && var (rows, p) := Alone(h.rows, A.Fresh(InputOf(m, dek.value)));
               && rows == h'.rows
               && p == if result.Thrown? then A.Thrown else A.Returned(InputOf(m, dek.value), result.sequence)
  {
    hide EnsureDek, Conflicts, MaxSequence, FindKey, ExpectedFits;
    DekAlwaysOpens(kms, h, m.account, m.conversation, m.randomKek, m.randomDek);
    var (h1, dek) := EnsureDek(kms, h, m.account, m.conversation, m.randomKek, m.randomDek);
    var input := InputOf(m, dek.value);
    if m.key.None? || FindKey(h.rows, m.account, m.key.value).None? {
      assert Alone(h.rows, A.Fresh(input)) == Alone(h.rows, A.Keyless(input));
      InsertsAlone(h.rows, input);
    }
  }
}
