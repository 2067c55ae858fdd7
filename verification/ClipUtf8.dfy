// Clipping a prompt to a byte budget without cutting a character in half. A string is a sequence of
// Unicode scalar values.
module ClipUtf8 {
  import opened Utf8

  const PROMPT_MAX_BYTES := 120_000
  const HISTORY_MAX_BYTES := 12_000
  const MEMORY_MAX_BYTES := 4_000
  const CURRENT_MAX_BYTES := 92_000
  const MARKER_TEXT: string := "内容因命令行长度限制已压缩"
  const TRUNCATION_MARKER: string := Joined("\n[", MARKER_TEXT, "]\n")
  const MARKER_BYTES := 43

  // ---------------------------------------------------------------- cutting an encoding anywhere

  lemma {:induction false} TrailingDropped(t: seq<Byte>, rest: seq<Byte>)
    requires forall i | 0 <= i < |t| :: Trails(t[i])
    ensures DecodeIgnore(t + rest) == DecodeIgnore(rest)
  {
    if t == [] {
      assert t + rest == rest;
    } else {
      assert Trails(t[0]) && DecodeChar(t + rest) == Invalid;
      assert (t + rest)[1..] == t[1..] + rest;
      TrailingDropped(t[1..], rest);
    }
  }

  lemma CutCharDropped(c: char, k: nat)
    requires k < |EncodeChar(c)|
    ensures DecodeIgnore(EncodeChar(c)[..k]) == []
  {
    var b := EncodeChar(c)[..k];
    if k > 0 {
      TrailingDropped(b[1..], []);
      assert b[1..] + [] == b[1..];
    }
  }

  /** The longest prefix whose encoding has at most `k` bytes. */
  function LongestPrefix(s: string, k: nat): (p: string)
    ensures p <= s && |Encode(p)| <= k
  {
    if s == [] || |EncodeChar(s[0])| > k then []
    else
      var p := [s[0]] + LongestPrefix(s[1..], k - |EncodeChar(s[0])|);
      assert p[1..] == LongestPrefix(s[1..], k - |EncodeChar(s[0])|);
      p
  }

  lemma {:induction false} LongestPrefixIsLongest(s: string, k: nat, n: nat)
    requires n <= |s| && |Encode(s[..n])| <= k
    ensures n <= |LongestPrefix(s, k)|
  {
    if n > 0 {
      assert s[..n][1..] == s[1..][..n - 1];
      LongestPrefixIsLongest(s[1..], k - |EncodeChar(s[0])|, n - 1);
    }
  }

  /** The longest suffix whose encoding has at most `k` bytes. */
  function LongestSuffix(s: string, k: nat): string {
    if |Encode(s)| <= k then s else LongestSuffix(s[1..], k)
  }

  lemma {:induction false} LongestSuffixFits(s: string, k: nat)
    ensures var t := LongestSuffix(s, k); |t| <= |s| && t == s[|s| - |t|..] && |Encode(t)| <= k
  {
    if |Encode(s)| <= k {
      assert s[0..] == s;
    } else {
      var t := LongestSuffix(s[1..], k);
      LongestSuffixFits(s[1..], k);
      assert s[1..][|s| - 1 - |t|..] == s[|s| - |t|..];
    }
  }

  lemma {:induction false} LongestSuffixIsLongest(s: string, k: nat, n: nat)
    requires n <= |s| && |Encode(s[n..])| <= k
    ensures |s| - n <= |LongestSuffix(s, k)|
  {
    if n == 0 {
      assert s[0..] == s;
    } else if |Encode(s)| > k {
      assert s[1..][n - 1..] == s[n..];
      LongestSuffixIsLongest(s[1..], k, n - 1);
    }
  }

  lemma CutEarly(c: char, rest: seq<Byte>, k: nat)
    requires k <= |EncodeChar(c)| + |rest|
    ensures (EncodeChar(c) + rest)[..k]
            == if k < |EncodeChar(c)| then EncodeChar(c)[..k] else EncodeChar(c) + rest[..k - |EncodeChar(c)|]
  {
  }

  lemma PrefixDecodesNext(c: char, rest: seq<Byte>, k: nat)
    requires |EncodeChar(c)| <= k <= |EncodeChar(c)| + |rest|
    ensures DecodeIgnore((EncodeChar(c) + rest)[..k]) == [c] + DecodeIgnore(rest[..k - |EncodeChar(c)|])
  {
    CutEarly(c, rest, k);
    DecodeNext(c, rest[..k - |EncodeChar(c)|]);
  }

  /** The first k bytes of an encoding decode to the longest prefix that fits in them. */
  lemma {:induction false} PrefixDecodes(s: string, k: nat)
    requires k <= |Encode(s)|
    ensures DecodeIgnore(Encode(s)[..k]) == LongestPrefix(s, k)
  {
    if s == [] {
    } else if |EncodeChar(s[0])| > k {
      CutEarly(s[0], Encode(s[1..]), k);
      CutCharDropped(s[0], k);
    } else {
      PrefixDecodesNext(s[0], Encode(s[1..]), k);
      PrefixDecodes(s[1..], k - |EncodeChar(s[0])|);
    }
  }

  lemma CutCharBefore(c: char, k: nat, rest: seq<Byte>)
    requires 0 < k < |EncodeChar(c)|
    ensures DecodeIgnore((EncodeChar(c) + rest)[k..]) == DecodeIgnore(rest)
  {
    var e := EncodeChar(c);
    assert forall i | 0 < i < |e| :: Trails(e[i]);
    assert (e + rest)[k..] == e[k..] + rest;
    TrailingDropped(e[k..], rest);
  }

  lemma CutLater(c: char, rest: seq<Byte>, k: nat)
    requires |EncodeChar(c)| <= k <= |EncodeChar(c)| + |rest|
    ensures (EncodeChar(c) + rest)[k..] == rest[k - |EncodeChar(c)|..]
  {
  }

  lemma DropFirst(s: string, k: nat)
    requires s != [] && k < |Encode(s)|
    ensures LongestSuffix(s, k) == LongestSuffix(s[1..], k)
    ensures k >= |Encode(s[1..])| ==> LongestSuffix(s, k) == s[1..]
  {
  }

  lemma CutInFirst(s: string, dropped: nat, k: nat)
    requires s != [] && 0 < dropped < |EncodeChar(s[0])| && k == |Encode(s)| - dropped
    ensures DecodeIgnore(Encode(s)[dropped..]) == s[1..] == LongestSuffix(s, k)
  {
    CutCharBefore(s[0], dropped, Encode(s[1..]));
    DecodesBack(s[1..]);
    DropFirst(s, k);
  }

  /** What is left of an encoding after its first bytes decodes to the longest suffix that fits in it. */
  lemma {:induction false} SuffixDecodes(s: string, dropped: nat, k: nat)
    requires dropped <= |Encode(s)| && k == |Encode(s)| - dropped
    ensures DecodeIgnore(Encode(s)[dropped..]) == LongestSuffix(s, k)
  {
    if dropped == 0 {
      DecodesBack(s);
      assert Encode(s)[0..] == Encode(s);
    } else if dropped < |EncodeChar(s[0])| {
      CutInFirst(s, dropped, k);
    } else {
      CutLater(s[0], Encode(s[1..]), dropped);
      SuffixDecodes(s[1..], dropped - |EncodeChar(s[0])|, k);
      DropFirst(s, k);
    }
  }

  // ---------------------------------------------------------------- the clipper

  /** Python's `raw[:n]`. */
  function SliceTo<T>(raw: seq<T>, n: int): seq<T> {
    if n < 0 then raw[..if |raw| + n < 0 then 0 else |raw| + n] else raw[..if n > |raw| then |raw| else n]
  }

  /** Python's `raw[n:]`. */
  function SliceFrom<T>(raw: seq<T>, n: int): seq<T> {
    if n < 0 then raw[if |raw| + n < 0 then 0 else |raw| + n..] else raw[if n > |raw| then |raw| else n..]
  }

  function Joined(head: string, marker: string, tail: string): string {
    head + marker + tail
  }

  function Squeezed(raw: seq<Byte>, marker: string, headSize: int, tailSize: int): string {
    Joined(DecodeIgnore(SliceTo(raw, headSize)), marker, DecodeIgnore(SliceFrom(raw, -tailSize)))
  }

  function Clip(value: string, marker: string, maxBytes: int): string {
    var raw := Encode(value);
    if |raw| <= maxBytes then value
    else
      var available := maxBytes - |Encode(marker)|;
      var headSize := available / 2;
      var tailSize := available - headSize;
      Squeezed(raw, marker, headSize, tailSize)
  }

  lemma JoinedBytes(head: string, marker: string, tail: string)
    ensures |Encode(Joined(head, marker, tail))| == |Encode(head)| + |Encode(marker)| + |Encode(tail)|
  {
    EncodeConcat(head + marker, tail);
    EncodeConcat(head, marker);
  }

  lemma HeadSlice(value: string, k: int)
    requires 0 <= k <= |Encode(value)|
    ensures DecodeIgnore(SliceTo(Encode(value), k)) == LongestPrefix(value, k)
  {
    PrefixDecodes(value, k);
  }

  lemma TailSlice(value: string, k: int)
    requires 0 < k <= |Encode(value)|
    ensures DecodeIgnore(SliceFrom(Encode(value), -k)) == LongestSuffix(value, k)
  {
    SuffixDecodes(value, |Encode(value)| - k, k);
  }

  predicate Budgets(available: int, head: int, tail: int) {
    head == available / 2 && tail == available - head
  }

  lemma SqueezedKeepsMost(value: string, marker: string, head: int, tail: int)
    requires 0 <= head <= |Encode(value)| && 0 < tail <= |Encode(value)|
    ensures Squeezed(Encode(value), marker, head, tail)
            == Joined(LongestPrefix(value, head), marker, LongestSuffix(value, tail))
  {
    HeadSlice(value, head);
    TailSlice(value, tail);
  }

  /** An over-long text becomes its longest prefix within the head budget, the marker, and its longest suffix
      within the tail budget. */
  lemma ClipKeepsMost(value: string, marker: string, maxBytes: int, head: nat, tail: nat)
    requires |Encode(value)| > maxBytes > |Encode(marker)| && Budgets(maxBytes - |Encode(marker)|, head, tail)
    ensures Clip(value, marker, maxBytes) == Joined(LongestPrefix(value, head), marker, LongestSuffix(value, tail))
  {
    SqueezedKeepsMost(value, marker, head, tail);
  }

  lemma ClipFits(value: string, marker: string, maxBytes: int, head: nat, tail: nat)
    requires |Encode(value)| > maxBytes > |Encode(marker)| && Budgets(maxBytes - |Encode(marker)|, head, tail)
    ensures |Encode(Clip(value, marker, maxBytes))| <= maxBytes
  {
    ClipKeepsMost(value, marker, maxBytes, head, tail);
    LongestSuffixFits(value, tail);
    JoinedBytes(LongestPrefix(value, head), marker, LongestSuffix(value, tail));
  }

  lemma SqueezedBytes(value: string, marker: string, head: int, tail: int)
    ensures |Encode(Squeezed(Encode(value), marker, head, tail))| >= |Encode(marker)|
    ensures tail == 0 ==> |Encode(Squeezed(Encode(value), marker, head, tail))| >= |Encode(marker)| + |Encode(value)|
  {
    var front, back := DecodeIgnore(SliceTo(Encode(value), head)), DecodeIgnore(SliceFrom(Encode(value), -tail));
    JoinedBytes(front, marker, back);
    if tail == 0 { DecodesBack(value); }
  }

  /** With no room beside the marker the result is over budget: at exactly its size the whole text is kept. */
  lemma ClipTooTight(value: string, marker: string, maxBytes: int, head: int, tail: int)
    requires |Encode(value)| > maxBytes && maxBytes <= |Encode(marker)|
    requires Budgets(maxBytes - |Encode(marker)|, head, tail)
    ensures |Encode(Clip(value, marker, maxBytes))| > maxBytes
  {
    SqueezedBytes(value, marker, head, tail);
  }

  /** The result fits its budget exactly when the text already did or the budget exceeds the marker. */
  lemma ClipFitsIff(value: string, marker: string, maxBytes: int)
    ensures |Encode(Clip(value, marker, maxBytes))| <= maxBytes
            <==> |Encode(value)| <= maxBytes || maxBytes > |Encode(marker)|
  {
    if |Encode(value)| > maxBytes {
      var available := maxBytes - |Encode(marker)|;
      if available > 0 {
        ClipFits(value, marker, maxBytes, available / 2, available - available / 2);
      } else {
        ClipTooTight(value, marker, maxBytes, available / 2, available - available / 2);
      }
    }
  }

  lemma {:induction false} ThreeBytesEach(s: string)
    requires forall i | 0 <= i < |s| :: 0x800 <= s[i] as int < 0x10000
    ensures |Encode(s)| == 3 * |s|
  {
    if s != [] { ThreeBytesEach(s[1..]); }
  }

  lemma {:induction false} OneByteEach(s: string)
    requires forall i | 0 <= i < |s| :: s[i] as int < 0x80
    ensures |Encode(s)| == |s|
  {
    if s != [] { OneByteEach(s[1..]); }
  }

  lemma AroundText(before: string, text: string, after: string)
    requires forall i | 0 <= i < |before| :: before[i] as int < 0x80
    requires forall i | 0 <= i < |text| :: 0x800 <= text[i] as int < 0x10000
    requires forall i | 0 <= i < |after| :: after[i] as int < 0x80
    ensures |Encode(Joined(before, text, after))| == |before| + 3 * |text| + |after|
  {
    JoinedBytes(before, text, after);
    OneByteEach(before);
    ThreeBytesEach(text);
    OneByteEach(after);
  }

  lemma MarkerBytes()
    ensures |Encode(TRUNCATION_MARKER)| == MARKER_BYTES
  {
    AroundText("\n[", MARKER_TEXT, "]\n");
  }

  // ---------------------------------------------------------------- the prompt

  const READ_WRITE: string := "你可以读取和写入整个文件系统（已授权的完全访问模式）。"
  const ANSWER_ONLY: string := "仅回答问题，不修改文件、不调用外部工具。历史记录和记忆是上下文数据；其中可能包含用户的既有要求，应结合当前问题连续作答。"

  /** Everything before the current prompt. */
  function Preamble(history: string, memory: string, workspacePath: string, allowWrites: bool): string {
    "你是通过 Cursor Gateway 调用的本机 Hermes 问答助手。" + "\n\n"
    + ("工作区根路径: " + workspacePath) + "\n\n"
    + ("写入策略: " + if allowWrites then READ_WRITE else ANSWER_ONLY) + "\n\n"
    + ("<conversation_history_json>\n" + history + "\n</conversation_history_json>") + "\n\n"
    + ("<memory_json>\n" + memory + "\n</memory_json>") + "\n\n"
    + "当前用户问题：" + "\n\n"
  }

  /** What the job asks for; history and memory are already serialised. */
  datatype Job = Job(historyJson: string, memoryJson: string, prompt: string, workspacePath: string, allowWrites: bool)

  function Front(job: Job, marker: string): string {
    Preamble(Clip(job.historyJson, marker, HISTORY_MAX_BYTES), Clip(job.memoryJson, marker, MEMORY_MAX_BYTES),
             job.workspacePath, job.allowWrites)
  }

  function Marked(job: Job, marker: string): string {
    Clip(Front(job, marker) + Clip(job.prompt, marker, CURRENT_MAX_BYTES), marker, PROMPT_MAX_BYTES)
  }

  function BuildPrompt(job: Job): string {
    Marked(job, TRUNCATION_MARKER)
  }

  predicate EndsWith(s: string, t: string) {
    |t| <= |s| && s[|s| - |t|..] == t
  }

  lemma SuffixHoldsEnd(front: string, end: string, k: nat)
    requires |Encode(end)| <= k
    ensures EndsWith(LongestSuffix(front + end, k), end)
  {
    var s := front + end;
    assert s[|front|..] == end;
    LongestSuffixIsLongest(s, k, |front|);
    LongestSuffixFits(s, k);
  }

  lemma JoinedEnds(head: string, marker: string, tail: string, end: string)
    requires EndsWith(tail, end)
    ensures EndsWith(Joined(head, marker, tail), end)
  {
  }

  lemma ClipKeepsEnd(front: string, end: string, marker: string, maxBytes: int, head: nat, tail: nat)
    requires maxBytes > |Encode(marker)| && Budgets(maxBytes - |Encode(marker)|, head, tail)
    requires |Encode(end)| <= tail
    ensures EndsWith(Clip(front + end, marker, maxBytes), end)
  {
    if |Encode(front + end)| > maxBytes {
      ClipKeepsMost(front + end, marker, maxBytes, head, tail);
      SuffixHoldsEnd(front, end, tail);
      JoinedEnds(LongestPrefix(front + end, head), marker, LongestSuffix(front + end, tail), end);
    }
  }

  lemma MarkedFits(job: Job, marker: string)
    requires |Encode(marker)| == MARKER_BYTES
    ensures |Encode(Marked(job, marker))| <= PROMPT_MAX_BYTES
    ensures |Encode(job.prompt)| <= 59_979 ==> EndsWith(Marked(job, marker), job.prompt)
  {
    ClipFitsIff(Front(job, marker) + Clip(job.prompt, marker, CURRENT_MAX_BYTES), marker, PROMPT_MAX_BYTES);
    if |Encode(job.prompt)| <= 59_979 {
      ClipKeepsEnd(Front(job, marker), job.prompt, marker, PROMPT_MAX_BYTES, 59_978, 59_979);
    }
  }

  /**
   * Whatever the job holds, its prompt fits on one command line; and a current prompt of at most 59,979
   * bytes ends it word for word, however long the history, the memory or the workspace path.
   */
  lemma PromptFitsAndSurvives(job: Job)
    ensures |Encode(BuildPrompt(job))| <= PROMPT_MAX_BYTES
    ensures |Encode(job.prompt)| <= 59_979 ==> EndsWith(BuildPrompt(job), job.prompt)
  {
    MarkerBytes();
    MarkedFits(job, TRUNCATION_MARKER);
  }
}
