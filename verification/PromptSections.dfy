// What a prompt says and in which order, and how much of it stands when it is clipped.
module PromptSections {
  import opened Utf8
  import opened ClipUtf8

  const MAY_WRITE: string := "你可以读取和写入整个文件系统（已授权的完全访问模式）。"
  const MAY_ANSWER: string := "仅回答问题，不修改文件、不调用外部工具。历史记录和记忆是上下文数据；其中可能包含用户的既有要求，应结合当前问题连续作答。"

  /** The sections of a prompt, in their order. */
  datatype Sections = Sections(
    identity: string, workspace: string, policy: string, history: string, memory: string, question: string,
    prompt: string)

  /** What each section says for a job: above all, the policy that goes with its permission. */
  ghost predicate SaysFor(x: Sections, job: Job) {
    && x.identity == "你是通过 Cursor Gateway 调用的本机 Hermes 问答助手。"
    && x.workspace == "工作区根路径: " + job.workspacePath
    && (job.allowWrites ==> x.policy == "写入策略: " + MAY_WRITE)
    && (!job.allowWrites ==> x.policy == "写入策略: " + MAY_ANSWER)
    && x.history == "<conversation_history_json>\n" + Clip(job.historyJson, TRUNCATION_MARKER, 12_000)
                    + "\n</conversation_history_json>"
    && x.memory == "<memory_json>\n" + Clip(job.memoryJson, TRUNCATION_MARKER, 4_000) + "\n</memory_json>"
    && x.question == "当前用户问题："
    && x.prompt == Clip(job.prompt, TRUNCATION_MARKER, 92_000)
  }

  /** Everything before the history. */
  function Above(x: Sections): string {
    x.identity + "\n\n" + x.workspace + "\n\n" + x.policy
  }

  /** Everything before the current prompt. */
  function AllButPrompt(x: Sections): string {
    Above(x) + "\n\n" + x.history + "\n\n" + x.memory + "\n\n" + x.question + "\n\n"
  }

  /** The prompt before it is clipped as a whole: its sections with blank lines between them. */
  lemma SectionsOf(job: Job) returns (x: Sections)
    ensures SaysFor(x, job)
    ensures BuildPrompt(job) == Clip(AllButPrompt(x) + x.prompt, TRUNCATION_MARKER, 120_000)
  {
    hide Clip;
    x := Sections(
      "你是通过 Cursor Gateway 调用的本机 Hermes 问答助手。",
      "工作区根路径: " + job.workspacePath,
      "写入策略: " + if job.allowWrites then MAY_WRITE else MAY_ANSWER,
      "<conversation_history_json>\n" + Clip(job.historyJson, TRUNCATION_MARKER, 12_000)
      + "\n</conversation_history_json>",
      "<memory_json>\n" + Clip(job.memoryJson, TRUNCATION_MARKER, 4_000) + "\n</memory_json>",
      "当前用户问题：",
      Clip(job.prompt, TRUNCATION_MARKER, 92_000));
    assert Front(job, TRUNCATION_MARKER) == AllButPrompt(x);
  }

  /** A prompt that fits is its sections, word for word. */
  lemma WholePrompt(job: Job, x: Sections)
    requires SaysFor(x, job) && |Encode(AllButPrompt(x) + x.prompt)| <= PROMPT_MAX_BYTES
    ensures BuildPrompt(job) == AllButPrompt(x) + x.prompt
  {
    hide AllButPrompt;
    var y := SectionsOf(job);
    OneSaying(x, y, job);
  }

  lemma OneSaying(x: Sections, y: Sections, job: Job)
    requires SaysFor(x, job) && SaysFor(y, job)
    ensures x == y
  {
    hide Clip;
  }

  lemma SentencesDiffer()
    ensures |MAY_WRITE| > 2 && |MAY_ANSWER| > 2 && MAY_WRITE[|MAY_WRITE| - 2] != MAY_ANSWER[|MAY_ANSWER| - 2]
  {
  }

  lemma EndsOnly(front: string, end: string, other: string)
    requires |end| > 2 && |other| > 2 && end[|end| - 2] != other[|other| - 2]
    ensures EndsWith(front + end, end) && !EndsWith(front + end, other)
  {
    var s := front + end;
    assert s[|s| - 2] == end[|end| - 2];
    assert |other| <= |s| ==> s[|s| - |other|..][|other| - 2] == s[|s| - 2];
  }

  /** What stands before the history ends in the permission to write exactly when the job has it. */
  lemma PolicyIff(job: Job, x: Sections)
    requires SaysFor(x, job)
    ensures EndsWith(Above(x), MAY_WRITE) <==> job.allowWrites
    ensures EndsWith(Above(x), MAY_ANSWER) <==> !job.allowWrites
  {
    hide MAY_WRITE, MAY_ANSWER;
    SentencesDiffer();
    var front := x.identity + "\n\n" + x.workspace + "\n\n" + "写入策略: ";
    assert job.allowWrites ==> Above(x) == front + MAY_WRITE;
    assert !job.allowWrites ==> Above(x) == front + MAY_ANSWER;
    EndsOnly(front, MAY_WRITE, MAY_ANSWER);
    EndsOnly(front, MAY_ANSWER, MAY_WRITE);
  }

  // ---------------------------------------------------------------- what stands when the whole is clipped

  /** A front within the head's share of the budget stands at the start, clipped or not. */
  lemma FrontStands(front: string, rest: string, marker: string, maxBytes: int, head: nat, tail: nat)
    requires maxBytes > |Encode(marker)| && Budgets(maxBytes - |Encode(marker)|, head, tail)
    requires |Encode(front)| <= head
    ensures front <= Clip(front + rest, marker, maxBytes)
  {
    if |Encode(front + rest)| > maxBytes {
      ClipKeepsMost(front + rest, marker, maxBytes, head, tail);
      assert (front + rest)[..|front|] == front;
      LongestPrefixIsLongest(front + rest, head, |front|);
    }
  }

  lemma {:induction false} AtMostFourEach(s: string)
    ensures |Encode(s)| <= 4 * |s|
  {
    if s != [] { AtMostFourEach(s[1..]); }
  }

  lemma FixedLengths()
    ensures |MAY_WRITE| <= 30 && |MAY_ANSWER| <= 70
    ensures |"你是通过 Cursor Gateway 调用的本机 Hermes 问答助手。"| <= 50 && |"工作区根路径: "| <= 10 && |"写入策略: "| <= 10
    ensures |"<conversation_history_json>\n"| <= 30 && |"\n</conversation_history_json>"| <= 30
    ensures |"<memory_json>\n"| <= 20 && |"\n</memory_json>"| <= 20 && |"当前用户问题："| <= 10 && |"\n\n"| == 2
  {
  }

  lemma TwoBytes(a: string, b: string)
    ensures |Encode(a + b)| <= 4 * |a| + |Encode(b)| && |Encode(a + b)| <= |Encode(a)| + 4 * |b|
  {
    EncodeConcat(a, b);
    AtMostFourEach(a);
    AtMostFourEach(b);
  }

  lemma FiveBytes(a: string, b: string, c: string, d: string, e: string)
    ensures |Encode(a + b + c + d + e)| <= 4 * |a| + 4 * |b| + |Encode(c)| + 4 * |d| + 4 * |e|
  {
    TwoBytes(a + b + c + d, e);
    TwoBytes(a + b + c, d);
    EncodeConcat(a + b, c);
    TwoBytes(a, b);
    AtMostFourEach(a);
  }

  lemma AboveBytes(job: Job, x: Sections)
    requires SaysFor(x, job)
    ensures |Encode(Above(x))| <= |Encode(job.workspacePath)| + 800
  {
    hide Clip, Encode;
    FixedLengths();
    TwoBytes("工作区根路径: ", job.workspacePath);
    FiveBytes(x.identity, "\n\n", x.workspace, "\n\n", x.policy);
  }

  lemma ClippedFits(value: string, maxBytes: int)
    requires maxBytes > 43
    ensures |Encode(Clip(value, TRUNCATION_MARKER, maxBytes))| <= maxBytes
  {
    MarkerBytes();
    ClipFitsIff(value, TRUNCATION_MARKER, maxBytes);
  }

  lemma TaggedBytes(before: string, text: string, after: string)
    ensures |Encode(before + text + after)| <= 4 * |before| + |Encode(text)| + 4 * |after|
  {
    TwoBytes(before + text, after);
    TwoBytes(before, text);
  }

  lemma FrontBytes(above: string, gap: string, history: string, memory: string, question: string)
    requires |gap| == 2
    ensures |Encode(above + gap + history + gap + memory + gap + question + gap)|
            <= |Encode(above)| + |Encode(history)| + |Encode(memory)| + 4 * |question| + 32
  {
    TwoBytes(above, gap);
    EncodeConcat(above + gap, history);
    TwoBytes(above + gap + history, gap);
    EncodeConcat(above + gap + history + gap, memory);
    TwoBytes(above + gap + history + gap + memory, gap);
    TwoBytes(above + gap + history + gap + memory + gap, question);
    TwoBytes(above + gap + history + gap + memory + gap + question, gap);
  }

  lemma AllButPromptBytes(job: Job, x: Sections)
    requires SaysFor(x, job)
    ensures |Encode(AllButPrompt(x))| <= |Encode(job.workspacePath)| + 800 + 12_000 + 4_000 + 600
  {
    hide Clip, Encode, Above;
    FixedLengths();
    AboveBytes(job, x);
    ClippedFits(job.historyJson, 12_000);
    ClippedFits(job.memoryJson, 4_000);
    TaggedBytes("<conversation_history_json>\n", Clip(job.historyJson, TRUNCATION_MARKER, 12_000),
                "\n</conversation_history_json>");
    TaggedBytes("<memory_json>\n", Clip(job.memoryJson, TRUNCATION_MARKER, 4_000), "\n</memory_json>");
    FrontBytes(Above(x), "\n\n", x.history, x.memory, x.question);
  }

  lemma AboveFirst(a: string, n: string, h: string, m: string, q: string, p: string)
    ensures a + n + h + n + m + n + q + n + p == a + (n + h + n + m + n + q + n + p)
  {
  }

  lemma Standing(job: Job, x: Sections, front: string, rest: string)
    requires SaysFor(x, job) && AllButPrompt(x) + x.prompt == front + rest && |Encode(front)| <= 59_978
    ensures front <= BuildPrompt(job)
  {
    hide AllButPrompt, Clip;
    var y := SectionsOf(job);
    OneSaying(x, y, job);
    MarkerBytes();
    FrontStands(front, rest, TRUNCATION_MARKER, 120_000, 59_978, 59_979);
  }

  /**
   * However long the history, the memory and the current prompt: with a workspace path of at most 59,000
   * bytes the prompt starts with the path and the policy, and with one of at most 42,000 bytes with every
   * section before the current prompt.
   */
  lemma SectionsStand(job: Job, x: Sections)
    requires SaysFor(x, job)
    ensures |Encode(job.workspacePath)| <= 59_000 ==> Above(x) <= BuildPrompt(job)
    ensures |Encode(job.workspacePath)| <= 42_000 ==> AllButPrompt(x) <= BuildPrompt(job)
  {
    hide Clip, Encode, SaysFor, Above;
    AboveBytes(job, x);
    AllButPromptBytes(job, x);
    if |Encode(job.workspacePath)| <= 59_000 {
      AboveFirst(Above(x), "\n\n", x.history, x.memory, x.question, x.prompt);
      Standing(job, x, Above(x), "\n\n" + x.history + "\n\n" + x.memory + "\n\n" + x.question + "\n\n" + x.prompt);
    }
    if |Encode(job.workspacePath)| <= 42_000 { Standing(job, x, AllButPrompt(x), x.prompt); }
  }
}
