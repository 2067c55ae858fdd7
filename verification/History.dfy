// Two truncations of a conversation's history, written independently: the server walks backwards and
// may cut the newest turn, the client drops turns from the front.
module History {
  import opened Prelude
  import opened JsText

  const MAX_HISTORY_TURNS: nat := 20
  const MAX_HISTORY_CHARACTERS: nat := 48_000

  datatype Turn = Turn(prompt: Text, response: Text)

  function Size(t: Turn): nat {
    |t.prompt| + |t.response|
  }

  function Total(h: seq<Turn>): nat {
    if h == [] then 0 else Size(h[0]) + Total(h[1..])
  }

  predicate Fits(h: seq<Turn>) {
    |h| <= MAX_HISTORY_TURNS && Total(h) <= MAX_HISTORY_CHARACTERS
  }

  /** The longest suffix of at most 20 turns within the character budget. */
  function LongestFit(h: seq<Turn>): (r: seq<Turn>)
    ensures Fits(r) && |r| <= |h| && r == h[|h| - |r|..]
  {
    if Fits(h) then h else LongestFit(h[1..])
  }

  lemma {:induction false} SuffixTotal(h: seq<Turn>, k: nat)
    requires k <= |h|
    ensures Total(h[k..]) <= Total(h)
  {
    if k > 0 {
      SuffixTotal(h[1..], k - 1);
      assert h[1..][k - 1..] == h[k..];
    }
  }

  /** It is the longest: no fitting suffix has more turns. */
  lemma {:induction false} LongestFitIsLongest(h: seq<Turn>, k: nat)
    requires k <= |h| && Fits(h[k..])
    ensures |h[k..]| <= |LongestFit(h)|
  {
    assert h[0..] == h;
    if !Fits(h) && k > 0 {
      assert h[1..][k - 1..] == h[k..];
      LongestFitIsLongest(h[1..], k - 1);
    }
  }

  /** A fitting suffix that cannot be lengthened by one turn is the longest. */
  lemma {:induction false} StopsAtLongest(h: seq<Turn>, k: nat)
    requires k <= |h| && Fits(h[k..]) && (k == 0 || !Fits(h[k - 1..]))
    ensures LongestFit(h) == h[k..]
  {
    if k == 0 {
      assert h[0..] == h;
    } else {
      SuffixTotal(h, k - 1);
      assert !Fits(h);
      assert h[1..][k - 1..] == h[k..];
      if k > 1 { assert h[1..][k - 2..] == h[k - 1..]; }
      StopsAtLongest(h[1..], k - 1);
    }
  }

  /** A kept history has at most 20 turns and 48,000 characters, and one that has is kept whole. */
  lemma KeptWithinLimits(h: seq<Turn>)
    ensures |LongestFit(h)| <= 20 && Total(LongestFit(h)) <= 48_000
    ensures |h| <= 20 && Total(h) <= 48_000 ==> LongestFit(h) == h
  {
  }

  // ---------------------------------------------------------------- the server

  /** `slice` of prompt and response to what is left of the budget. */
  function Cut(t: Turn, remaining: nat): Turn {
    if Size(t) <= remaining then t
    else Turn(t.prompt[..Min(|t.prompt|, remaining)], t.response[..Max(0, remaining - |t.prompt|)])
  }

  /** A cut turn is the first characters of the prompt and then of the response, as many as are left. */
  lemma CutIsPrefix(t: Turn, remaining: nat)
    ensures var c := Cut(t, remaining);
            && c.prompt + c.response == (t.prompt + t.response)[..Min(Size(t), remaining)]
            && c.prompt <= t.prompt && (c.response != [] ==> c.prompt == t.prompt)
  {
  }

  function CutNewest(h: seq<Turn>): seq<Turn> {
    if h == [] then [] else h[..|h| - 1] + [Cut(h[|h| - 1], MAX_HISTORY_CHARACTERS)]
  }

  function Reversed<T>(s: seq<T>): seq<T> {
    seq(|s|, i requires 0 <= i < |s| => s[|s| - 1 - i])
  }

  lemma ReversedPush<T>(s: seq<T>, x: T)
    ensures Reversed(s + [x]) == [x] + Reversed(s)
  {
  }

  /** One more turn, cut to what is left: the newest to the whole budget, any other fitting as it is. */
  lemma TurnTaken(h: seq<Turn>, index: nat, characters: nat)
    requires index < |h| && characters == Total(CutNewest(h)[index + 1..]) <= MAX_HISTORY_CHARACTERS
    requires index < |h| - 1 ==> characters + Size(h[index]) <= MAX_HISTORY_CHARACTERS
    ensures var left := MAX_HISTORY_CHARACTERS - characters;
            && CutNewest(h)[index] == Cut(h[index], left)
            && Total(CutNewest(h)[index..]) == characters + Min(Size(h[index]), left)
            && CutNewest(h)[index..] == [Cut(h[index], left)] + CutNewest(h)[index + 1..]
  {
    var cut := CutNewest(h);
    assert cut[index..][1..] == cut[index + 1..];
    if index == |h| - 1 { assert cut[index + 1..] == []; }
  }

  /** A turn that does not fit any more ends the suffix there. */
  lemma TurnRefused(h: seq<Turn>, index: nat)
    requires index < |h| - 1 && Total(CutNewest(h)[index + 1..]) + Size(h[index]) > MAX_HISTORY_CHARACTERS
    ensures !Fits(CutNewest(h)[index..])
  {
    assert CutNewest(h)[index..][1..] == CutNewest(h)[index + 1..];
  }

  /** The turns from `next` on have been taken, newest first, with so many characters. */
  ghost predicate Taken(h: seq<Turn>, selected: seq<Turn>, characters: nat, next: nat) {
    && next <= |h| && |selected| == |h| - next && Reversed(selected) == CutNewest(h)[next..]
    && characters == Total(CutNewest(h)[next..]) <= MAX_HISTORY_CHARACTERS
  }

  lemma NoneTaken(h: seq<Turn>)
    ensures Taken(h, [], 0, |h|)
  {
  }

  lemma OneTaken(h: seq<Turn>, selected: seq<Turn>, characters: nat, next: nat)
    requires Taken(h, selected, characters, next) && next > 0
    requires selected != [] ==> characters + Size(h[next - 1]) <= MAX_HISTORY_CHARACTERS
    ensures var left := MAX_HISTORY_CHARACTERS - characters;
            Taken(h, selected + [Cut(h[next - 1], left)], characters + Min(Size(h[next - 1]), left), next - 1)
  {
    hide CutNewest, Cut, Total, Reversed, Size;
    TurnTaken(h, next - 1, characters);
    ReversedPush(selected, Cut(h[next - 1], MAX_HISTORY_CHARACTERS - characters));
  }

  /** When it stops, every turn is taken, or twenty are, or the next does not fit. */
  lemma TakenAll(h: seq<Turn>, selected: seq<Turn>, characters: nat, next: nat)
    requires Taken(h, selected, characters, next) && |selected| <= MAX_HISTORY_TURNS
    requires next == 0 || |selected| == MAX_HISTORY_TURNS
             || (selected != [] && characters + Size(h[next - 1]) > MAX_HISTORY_CHARACTERS)
    ensures Reversed(selected) == LongestFit(CutNewest(h))
  {
    hide Cut, Total, Reversed, Size, LongestFit;
    if next > 0 && |selected| < MAX_HISTORY_TURNS { TurnRefused(h, next - 1); }
    StopsAtLongest(CutNewest(h), next);
  }

  /** The server keeps the longest fitting suffix of the history whose newest turn has been cut to the budget. */
  method TruncateConversationHistory(history: seq<Turn>) returns (kept: seq<Turn>)
    ensures kept == LongestFit(CutNewest(history))
  {
    hide Taken, Reversed, LongestFit, CutNewest;
    var selected: seq<Turn> := [];
    var characters: nat := 0;
    var index := |history| - 1;
    NoneTaken(history);
    while index >= 0 && |selected| < MAX_HISTORY_TURNS
      invariant -1 <= index < |history| && Taken(history, selected, characters, index + 1)
      invariant characters <= MAX_HISTORY_CHARACTERS && |selected| <= MAX_HISTORY_TURNS
    {
      var turn := history[index];
      var turnCharacters := |turn.prompt| + |turn.response|;
      if |selected| > 0 && characters + turnCharacters > MAX_HISTORY_CHARACTERS { break; }
      var remaining := MAX_HISTORY_CHARACTERS - characters;
      OneTaken(history, selected, characters, index + 1);
      var kept := Cut(turn, remaining);
      selected := selected + [kept];
      characters := characters + Min(turnCharacters, remaining);
      index := index - 1;
    }
    TakenAll(history, selected, characters, index + 1);
    kept := Reversed(selected);
  }

  // ---------------------------------------------------------------- the client

  datatype RunResult = RunResult(status: string, response: Option<Text>)
  datatype DecryptedRun = DecryptedRun(prompt: Text, result: Option<RunResult>)

  /** A finished run with a non-empty response: what the client counts as a turn. */
  predicate Completed(r: DecryptedRun) {
    r.result.Some? && r.result.value.status == "finished"
    && r.result.value.response.Some? && r.result.value.response.value != []
  }

  function CompletedTurns(runs: seq<DecryptedRun>): (turns: seq<Turn>)
    ensures forall t | t in turns :: t.response != []
  {
    if runs == [] then []
    else (if Completed(runs[0]) then [Turn(runs[0].prompt, runs[0].result.value.response.value)] else [])
         + CompletedTurns(runs[1..])
  }

  /** Each finished run that answered something is a turn, in order; no other run is. */
  lemma TurnOfRun(r: DecryptedRun, answer: Text)
    requires answer != []
    ensures r.result == Some(RunResult("finished", Some(answer))) ==> CompletedTurns([r]) == [Turn(r.prompt, answer)]
    ensures r.result.None? || r.result.value.status != "finished" || r.result.value.response.GetOr([]) == [] ==>
              CompletedTurns([r]) == []
  {
    assert CompletedTurns([r][1..]) == [];
  }

  lemma {:induction false} TurnsConcat(a: seq<DecryptedRun>, b: seq<DecryptedRun>)
    ensures CompletedTurns(a + b) == CompletedTurns(a) + CompletedTurns(b)
  {
    hide Completed;
    if a == [] {
      assert a + b == b;
    } else {
      assert (a + b)[1..] == a[1..] + b;
      TurnsConcat(a[1..], b);
    }
  }

  /** The client keeps the longest fitting suffix of the completed turns. */
  method TruncateHistory(runs: seq<DecryptedRun>) returns (completed: seq<Turn>)
    ensures completed == LongestFit(CompletedTurns(runs))
  {
    var all := CompletedTurns(runs);
    completed := if |all| > MAX_HISTORY_TURNS then all[|all| - MAX_HISTORY_TURNS..] else all;
    ghost var k := |all| - |completed|;
    while |completed| > 0 && Total(completed) > MAX_HISTORY_CHARACTERS
      invariant 0 <= k <= |all| && completed == all[k..] && |completed| <= MAX_HISTORY_TURNS
      invariant k == 0 || !Fits(all[k - 1..])
    {
      completed := completed[1..];
      k := k + 1;
    }
    StopsAtLongest(all, k);
  }

  // ---------------------------------------------------------------- agreement

  lemma {:induction false} SizesBelowTotal(h: seq<Turn>)
    requires h != []
    ensures Size(h[|h| - 1]) <= Total(h)
    ensures |h| > 1 ==> Total(h) >= Size(h[|h| - 1]) + Size(h[|h| - 2])
  {
    if |h| > 1 {
      SizesBelowTotal(h[1..]);
    }
  }

  /** No suffix ending in an oversized turn fits, so nothing is kept. */
  lemma {:induction false} OversizedKeepsNothing(h: seq<Turn>)
    requires h != [] ==> Size(h[|h| - 1]) > MAX_HISTORY_CHARACTERS
    ensures LongestFit(h) == []
  {
    if h != [] {
      SizesBelowTotal(h);
      OversizedKeepsNothing(h[1..]);
    }
  }

  lemma {:induction false} OneTurnKept(h: seq<Turn>)
    requires h != [] && Size(h[|h| - 1]) == MAX_HISTORY_CHARACTERS
    requires forall i | 0 <= i < |h| - 1 :: h[i].response != []
    ensures LongestFit(h) == [h[|h| - 1]]
  {
    if |h| > 1 {
      SizesBelowTotal(h);
      OneTurnKept(h[1..]);
    } else {
      assert h == [h[0]] && Total(h[1..]) == 0;
    }
  }

  lemma OversizedCut(h: seq<Turn>)
    requires h != [] && Size(h[|h| - 1]) > MAX_HISTORY_CHARACTERS && forall t | t in h :: t.response != []
    ensures var cut := Cut(h[|h| - 1], MAX_HISTORY_CHARACTERS);
            Size(cut) == MAX_HISTORY_CHARACTERS && LongestFit(CutNewest(h)) == [cut]
  {
    var c := CutNewest(h);
    forall i | 0 <= i < |c| - 1 ensures c[i].response != [] {
      assert c[i] == h[i] && h[i] in h;
    }
    OneTurnKept(c);
  }

  /**
   * On turns with non-empty responses the server's result and the client's coincide exactly when the
   * newest turn is within the budget. Otherwise the client sends no history at all and the server one
   * turn, cut to exactly the budget.
   */
  lemma TruncationsAgreeIff(h: seq<Turn>)
    requires forall t | t in h :: t.response != []
    ensures LongestFit(CutNewest(h)) == LongestFit(h) <==> (h == [] || Size(h[|h| - 1]) <= MAX_HISTORY_CHARACTERS)
    ensures h != [] && Size(h[|h| - 1]) > MAX_HISTORY_CHARACTERS ==>
              LongestFit(h) == [] && LongestFit(CutNewest(h)) == [Cut(h[|h| - 1], MAX_HISTORY_CHARACTERS)]
              && Size(Cut(h[|h| - 1], MAX_HISTORY_CHARACTERS)) == MAX_HISTORY_CHARACTERS
  {
    hide LongestFit, Total;
    if h != [] {
      if Size(h[|h| - 1]) <= MAX_HISTORY_CHARACTERS {
        assert CutNewest(h) == h;
      } else {
        OversizedKeepsNothing(h);
        OversizedCut(h);
      }
    }
  }
}
