/** `get_gemini_correction` of the sheets processor: the transcript lines are cut into
    contiguous batches of at most 100 lines; each batch is sent with its own prompt
    inside the retry loop (five attempts, base delay 60 s); each reply is reconciled
    to the batch's line count; a fixed 15 s pause separates consecutive batches; and
    any batch that fails makes the whole correction fail, so there is never partial
    output. Also `execute_gspread_write`, the same retry loop around a sheet write
    with base delay 5 s, and the choice between the two prompt pairs. */
module SheetsCorrection {
  import opened Wrappers
  import opened TextUtil
  import opened Retry
  import opened Reconcile

  const BatchMaxLines: nat := 100
  const MaxRetries: nat := 5
  const BaseDelay: nat := 60
  const SafeDelay: nat := 15
  const GspreadBaseDelay: nat := 5

  // ---------------------------------------------------------------------------
  // Prompts
  // ---------------------------------------------------------------------------

  /** The rules templates are one text around the placeholder, with the third rule
      differing between the two. */
  const RulesHead: string := "# RULES\n1.  **[最重要] 格式一致性**: 輸出必須與輸入的行數完全相同 (共 "
  const RulesMiddle: string := " 行)。絕不合併或拆分任何行。\n2.  **逐行處理**: 逐行校對。若某行無誤，直接複製該行原文。\n3.  **校對依據**: "
  const RulesEnd: string := "\n4.  **輸出格式**:\n    - 全程使用繁體中文。\n    - 移除所有標點符號。"
  const PdfBasis: string := "僅根據下方提供的「參考資料」修正錯字、專有名詞和法義錯誤。"
  const KnowledgeBasis: string := "修正任何明顯的聽打錯誤、錯別字或不通順之處。"

  /** A `str.format` template: literal text and named replacement fields. */
  datatype Piece = Text(text: string) | Field(name: string)

  const BatchLineCount: string := "batch_line_count"

  const PdfBasedCorrectionRules: seq<Piece> :=
    [Text(RulesHead), Field(BatchLineCount), Text(RulesMiddle + PdfBasis + RulesEnd)]
  const KnowledgeBasedCorrectionRules: seq<Piece> :=
    [Text(RulesHead), Field(BatchLineCount), Text(RulesMiddle + KnowledgeBasis + RulesEnd)]

  const PdfBasedMainInstruction: string :=
    "# ROLE\n你是一位精通三藏十二部經的佛學專家，專長是依據文獻進行文本校對。\n\n# CONTEXT\n- **校對目標**: 以下是關於《觀無量壽經》、《觀經四帖疏》與《傳通記》講座的 Whisper 自動語音辨識字幕。\n- **參考資料**: 我將提供一份上課講義作為唯一的校對依據。\n- **任務**: 你的任務是依據「參考資料」逐行校對「字幕文本」，修正所有聽打錯誤。"
  const KnowledgeBasedMainInstruction: string :=
    "# ROLE\n你是一位精通三藏十二部經的佛學專家，專長是進行文本校對。\n\n# CONTEXT\n- **校對目標**: 以下是關於《觀無量壽經》、《觀經四帖疏》與《傳通記》講座的 Whisper 自動語音辨識字幕。\n- **任務**: 由於沒有提供參考講義，請依據你自身的佛學專業知識和通用語言規則，逐行校對「字幕文本」，修正所有聽打錯誤。"

  /** The prompt pair `initial_setup` picks: the handout-based one when the extracted
      handout text is not blank, the knowledge-based one otherwise. */
  function SelectPrompts(pdfText: string): (r: (string, seq<Piece>))
    ensures (exists i :: 0 <= i < |pdfText| && !IsSpace(pdfText[i])) ==>
      r == (PdfBasedMainInstruction, PdfBasedCorrectionRules)
    ensures (forall i :: 0 <= i < |pdfText| ==> IsSpace(pdfText[i])) ==>
      r == (KnowledgeBasedMainInstruction, KnowledgeBasedCorrectionRules)
  {
    StripEmptyIffBlank(pdfText);
    if Strip(pdfText) != [] then (PdfBasedMainInstruction, PdfBasedCorrectionRules)
    else (KnowledgeBasedMainInstruction, KnowledgeBasedCorrectionRules)
  }

  /** `template.format(name=value)`: every field called `name` becomes `value`; any
      other field is a `KeyError`, given here as no result. */
  function Format(template: seq<Piece>, name: string, value: string): Option<string>
  {
    if template == [] then Some("")
    else
      var rest := Format(template[1..], name, value);
      match template[0]
        case Text(t) => if rest.Some? then Some(t + rest.value) else None
        case Field(f) => if f == name && rest.Some? then Some(value + rest.value) else None
  }

  /** The template as written, with each field in braces. */
  function Source(template: seq<Piece>): string
  {
    if template == [] then ""
    else match template[0]
      case Text(t) => t + Source(template[1..])
      case Field(f) => "{" + f + "}" + Source(template[1..])
  }

  /** Formatting a template made of two parts formats each part. */
  lemma {:induction false} FormatAppend(a: seq<Piece>, b: seq<Piece>, name: string, value: string)
    ensures Format(a + b, name, value) ==
      if Format(a, name, value).Some? && Format(b, name, value).Some?
      then Some(Format(a, name, value).value + Format(b, name, value).value) else None
    decreases |a|
  {
    if a == [] {
      assert a + b == b;
      if Format(b, name, value).Some? {
        assert "" + Format(b, name, value).value == Format(b, name, value).value;
      }
    } else {
      var ab := a + b;
      assert ab[0] == a[0] && ab[1..] == a[1..] + b;
      FormatAppend(a[1..], b, name, value);
      var rest := Format(a[1..], name, value);
      var fb := Format(b, name, value);
      if rest.Some? && fb.Some? {
        match a[0]
        case Text(t) => assert t + (rest.value + fb.value) == (t + rest.value) + fb.value;
        case Field(f) => assert value + (rest.value + fb.value) == (value + rest.value) + fb.value;
      }
    }
  }

  /** A template whose only fields are called `name` always formats. */
  lemma {:induction false} FormatOnlyField(template: seq<Piece>, name: string, value: string)
    requires forall i :: 0 <= i < |template| && template[i].Field? ==> template[i].name == name
    ensures Format(template, name, value).Some?
    decreases |template|
  {
    if template != [] {
      FormatOnlyField(template[1..], name, value);
    }
  }

  /** A template with one field between two literal parts: its source has the field
      in braces, and formatting puts `value` in its place and keeps both parts. */
  lemma FormatOneField(head: string, name: string, tail: string, value: string)
    ensures Source([Text(head), Field(name), Text(tail)]) == head + "{" + name + "}" + tail
    ensures Format([Text(head), Field(name), Text(tail)], name, value) == Some(head + value + tail)
  {
    var t3: seq<Piece> := [Text(tail)];
    var t2: seq<Piece> := [Field(name), Text(tail)];
    var t1: seq<Piece> := [Text(head), Field(name), Text(tail)];
    assert t3[1..] == [] && t2[1..] == t3 && t1[1..] == t2;
    assert Source(t3) == tail + "" == tail;
    assert Format(t3, name, value) == Some(tail + "") == Some(tail);
    assert Source(t2) == "{" + name + "}" + tail;
    assert Format(t2, name, value) == Some(value + tail);
    assert Source(t1) == head + ("{" + name + "}" + tail);
    assert Format(t1, name, value) == Some(head + (value + tail));
    assert head + ("{" + name + "}" + tail) == head + "{" + name + "}" + tail;
    assert head + (value + tail) == head + value + tail;
  }

  /** `correction_rules.format(batch_line_count=count)`: either shipped rules
      template states the batch's line count where its placeholder was and is
      otherwise its source text unchanged. */
  lemma FormatRulesCount(pdf: bool, count: nat)
    ensures var rules := if pdf then PdfBasedCorrectionRules else KnowledgeBasedCorrectionRules;
      var tail := RulesMiddle + (if pdf then PdfBasis else KnowledgeBasis) + RulesEnd;
      && Source(rules) == RulesHead + "{batch_line_count}" + tail
      && Format(rules, BatchLineCount, NatToString(count)) == Some(RulesHead + NatToString(count) + tail)
  {
    var tail := RulesMiddle + (if pdf then PdfBasis else KnowledgeBasis) + RulesEnd;
    FormatOneField(RulesHead, BatchLineCount, tail, NatToString(count));
  }

  /** The rules template formats for any batch: its only field is the line count. */
  predicate CountOnly(rules: seq<Piece>) {
    forall i :: 0 <= i < |rules| && rules[i].Field? ==> rules[i].name == BatchLineCount
  }

  /** Both shipped rules templates take the line count and nothing else. */
  lemma ShippedRulesFormat()
    ensures CountOnly(PdfBasedCorrectionRules) && CountOnly(KnowledgeBasedCorrectionRules)
  {
  }

  /** Formatting either shipped rules template for a batch puts the batch's line
      count where the placeholder was and keeps the rest of its text. */
  lemma ShippedFormatRules(pdf: bool, count: nat)
    ensures var rules := if pdf then PdfBasedCorrectionRules else KnowledgeBasedCorrectionRules;
      var tail := RulesMiddle + (if pdf then PdfBasis else KnowledgeBasis) + RulesEnd;
      && CountOnly(rules)
      && FormatRules(rules, count) == RulesHead + NatToString(count) + tail
  {
    ShippedRulesFormat();
    FormatRulesCount(pdf, count);
  }

  /** `correction_rules.format(batch_line_count=...)` on a template whose only field
      is the line count. */
  function FormatRules(rules: seq<Piece>, count: nat): (r: string)
    requires CountOnly(rules)
    ensures Some(r) == Format(rules, BatchLineCount, NatToString(count))
  {
    FormatOnlyField(rules, BatchLineCount, NatToString(count));
    Format(rules, BatchLineCount, NatToString(count)).value
  }

  /** The fixed opening of every batch prompt: instruction, formatted rules and the
      task separator. */
  function TaskHead(mainInstruction: string, rules: string): string {
    mainInstruction + "\n\n" + rules + "\n\n" + "--- 以下是你需要處理的實際任務 ---\n\n"
  }

  function ReferenceBlock(pdfContext: string): string {
    "<參考資料>\n" + pdfContext + "\n</參考資料>\n\n"
  }

  function SubtitleBlock(batchText: string): string {
    "<字幕文本>\n" + batchText + "\n</字幕文本>\n\n" + "<校對後輸出>"
  }

  /** A correction job: the transcript lines, the handout text and the prompt pair. */
  datatype Job = Job(lines: seq<string>, pdfContext: string, mainInstruction: string, rules: seq<Piece>)

  /** `full_prompt_for_batch`: the reference block is present exactly when the
      handout context is not blank. */
  function BatchPrompt(job: Job, batch: seq<string>): string
    requires CountOnly(job.rules)
  {
    var head := TaskHead(job.mainInstruction, FormatRules(job.rules, |batch|));
    var text := Join(batch, "\n");
    if Strip(job.pdfContext) != [] then head + ReferenceBlock(job.pdfContext) + SubtitleBlock(text)
    else head + SubtitleBlock(text)
  }

  // ---------------------------------------------------------------------------
  // Batches
  // ---------------------------------------------------------------------------

  /** `num_batches = (total_lines + 99) // 100`. */
  function NumBatches(n: nat): nat {
    (n + BatchMaxLines - 1) / BatchMaxLines
  }

  function Min(a: nat, b: nat): nat { if a <= b then a else b }

  /** `num_batches` is the ceiling of `n / 100`: enough batches of 100 to hold every
      line, and none to spare. */
  lemma NumBatchesCeil(n: nat)
    ensures NumBatches(n) * 100 >= n
    ensures n > 0 ==> (NumBatches(n) - 1) * 100 < n
    ensures n == 0 <==> NumBatches(n) == 0
  {
  }

  /** Batch `b`: `lines[b * 100 : min((b + 1) * 100, n)]`. */
  function Batch(lines: seq<string>, b: nat): seq<string>
    requires b < NumBatches(|lines|)
  {
    lines[b * BatchMaxLines .. Min((b + 1) * BatchMaxLines, |lines|)]
  }

  /** Every batch holds between 1 and 100 lines, so the `continue` on an empty batch
      is never taken; all but the last hold exactly 100. */
  lemma BatchSize(lines: seq<string>, b: nat)
    requires b < NumBatches(|lines|)
    ensures 1 <= |Batch(lines, b)| <= BatchMaxLines
    ensures b < NumBatches(|lines|) - 1 ==> |Batch(lines, b)| == BatchMaxLines
  {
  }

  /** The first `b` batches, concatenated. */
  function BatchesUpTo(lines: seq<string>, b: nat): seq<string>
    requires b <= NumBatches(|lines|)
  {
    if b == 0 then [] else BatchesUpTo(lines, b - 1) + Batch(lines, b - 1)
  }

  /** The first `b` batches are the first `min(100 b, n)` lines, in order; all of
      them together are the transcript. */
  lemma {:induction false} BatchesConcat(lines: seq<string>, b: nat)
    requires b <= NumBatches(|lines|)
    ensures BatchesUpTo(lines, b) == lines[..Min(b * BatchMaxLines, |lines|)]
    ensures b == NumBatches(|lines|) ==> BatchesUpTo(lines, b) == lines
  {
    if b > 0 {
      BatchesConcat(lines, b - 1);
      BatchSize(lines, b - 1);
      var lo := (b - 1) * BatchMaxLines;
      assert Min(lo, |lines|) == lo;
      assert lines[..lo] + lines[lo..Min(b * BatchMaxLines, |lines|)] == lines[..Min(b * BatchMaxLines, |lines|)];
    }
    if b == NumBatches(|lines|) {
      NumBatchesCeil(|lines|);
      assert lines[..|lines|] == lines;
    }
  }

  /** The prompt of every batch, in order. */
  function BatchPrompts(job: Job): (ps: seq<string>)
    requires CountOnly(job.rules)
    ensures |ps| == NumBatches(|job.lines|)
  {
    seq(NumBatches(|job.lines|), b requires 0 <= b < NumBatches(|job.lines|) => BatchPrompt(job, Batch(job.lines, b)))
  }

  // ---------------------------------------------------------------------------
  // The correction
  // ---------------------------------------------------------------------------

  /** The batches of a job as the loop sees them: the transcript lines and the
      prompt of each batch, in order. */
  datatype Plan = Plan(lines: seq<string>, prompts: seq<string>)

  predicate ValidPlan(plan: Plan) {
    |plan.prompts| == NumBatches(|plan.lines|)
  }

  function PlanOf(job: Job): (plan: Plan)
    requires CountOnly(job.rules)
    ensures ValidPlan(plan) && plan.lines == job.lines
  {
    Plan(job.lines, BatchPrompts(job))
  }

  /** After some batches: the reconciled lines so far (none once a batch failed),
      the next unused service outcome and the events. */
  datatype Run = Run(out: Option<seq<string>>, next: nat, log: seq<Event>)

  /** The answer to batch `b`: its prompt run through the retry loop. */
  function BatchReply(service: nat -> Outcome<string>, plan: Plan, next: nat, b: nat): Attempts<string>
    requires ValidPlan(plan) && b < NumBatches(|plan.lines|)
  {
    Backoff(service, next, plan.prompts[b], BaseDelay, MaxRetries, 0)
  }

  /** Batch `b` after the run `prev`: nothing once a batch failed; otherwise its
      reconciled reply lines are appended, or the run fails with the retry loop,
      and a success before the last batch is followed by the fixed pause. */
  function BatchStep(service: nat -> Outcome<string>, plan: Plan, prev: Run, b: nat): Run
    requires ValidPlan(plan) && b < NumBatches(|plan.lines|)
  {
    if prev.out.None? then prev
    else
      var a := BatchReply(service, plan, prev.next, b);
      if a.reply.None? then Run(None, a.next, prev.log + a.log)
      else
        var pause := if b < NumBatches(|plan.lines|) - 1 then [Sleep(SafeDelay)] else [];
        Run(Some(prev.out.value + Reconciled(Batch(plan.lines, b), ReplyLines(a.reply.value))),
            a.next, prev.log + a.log + pause)
  }

  /** The first `b` batches, run against `service` from outcome `start`. */
  function AfterBatches(service: nat -> Outcome<string>, start: nat, plan: Plan, b: nat): Run
    requires ValidPlan(plan) && b <= NumBatches(|plan.lines|)
  {
    if b == 0 then Run(Some([]), start, [])
    else BatchStep(service, plan, AfterBatches(service, start, plan, b - 1), b - 1)
  }

  /** The correction: `None` without an API key (or when configuring the SDK fails),
      `""` without a call for an empty transcript, and otherwise the reconciled lines
      of all batches joined by newlines, or `None` when any batch failed. */
  function GeminiCorrection(configured: bool, service: nat -> Outcome<string>, start: nat, job: Job): Correction
    requires CountOnly(job.rules)
  {
    if !configured then Correction(None, start, [])
    else if job.lines == [] then Correction(Some(""), start, [])
    else
      var r := AfterBatches(service, start, PlanOf(job), NumBatches(|job.lines|));
      Correction(if r.out.Some? then Some(Join(r.out.value, "\n")) else None, r.next, r.log)
  }

  /** A failed batch stays failed: no later batch is run and nothing more is logged. */
  lemma {:induction false} FailureSticks(service: nat -> Outcome<string>, start: nat, plan: Plan, b: nat, c: nat)
    requires ValidPlan(plan) && b <= c <= NumBatches(|plan.lines|)
    requires AfterBatches(service, start, plan, b).out.None?
    ensures AfterBatches(service, start, plan, c) == AfterBatches(service, start, plan, b)
    decreases c - b
  {
    if c > b {
      FailureSticks(service, start, plan, b, c - 1);
      FailedBatchStep(service, plan, AfterBatches(service, start, plan, c - 1), c - 1);
    }
  }

  lemma FailedBatchStep(service: nat -> Outcome<string>, plan: Plan, prev: Run, b: nat)
    requires ValidPlan(plan) && b < NumBatches(|plan.lines|) && prev.out.None?
    ensures BatchStep(service, plan, prev, b) == prev
  {
  }

  /** A successful batch appends its reconciled reply lines. */
  lemma SuccessfulBatchStep(service: nat -> Outcome<string>, plan: Plan, prev: Run, b: nat)
    requires ValidPlan(plan) && b < NumBatches(|plan.lines|) && prev.out.Some?
    requires BatchReply(service, plan, prev.next, b).reply.Some?
    ensures var reply := ReplyLines(BatchReply(service, plan, prev.next, b).reply.value);
      BatchStep(service, plan, prev, b).out == Some(prev.out.value + Reconciled(Batch(plan.lines, b), reply))
  {
  }

  /** After `b` successful batches there are exactly as many corrected lines as
      lines in those batches. */
  lemma {:induction false} AfterBatchesCount(service: nat -> Outcome<string>, start: nat, plan: Plan, b: nat)
    requires ValidPlan(plan) && b <= NumBatches(|plan.lines|)
    ensures var r := AfterBatches(service, start, plan, b);
      r.out.Some? ==> |r.out.value| == |BatchesUpTo(plan.lines, b)|
  {
    if b > 0 {
      AfterBatchesCount(service, start, plan, b - 1);
    }
  }

  /** When no transcript line holds a newline, neither does any corrected line. */
  lemma {:induction false} AfterBatchesNoNewline(service: nat -> Outcome<string>, start: nat, plan: Plan, b: nat)
    requires ValidPlan(plan) && b <= NumBatches(|plan.lines|)
    requires forall i :: 0 <= i < |plan.lines| ==> '\n' !in plan.lines[i]
    ensures var r := AfterBatches(service, start, plan, b);
      r.out.Some? ==> forall i :: 0 <= i < |r.out.value| ==> '\n' !in r.out.value[i]
  {
    if b > 0 {
      AfterBatchesNoNewline(service, start, plan, b - 1);
      var prev := AfterBatches(service, start, plan, b - 1);
      if prev.out.Some? {
        var a := BatchReply(service, plan, prev.next, b - 1);
        if a.reply.Some? {
          var reply := ReplyLines(a.reply.value);
          var rec := Reconciled(Batch(plan.lines, b - 1), reply);
          SuccessfulBatchStep(service, plan, prev, b - 1);
          BatchLinesNoNewline(plan.lines, b - 1, reply);
          NoNewlineAppend(prev.out.value, rec);
        }
      }
    }
  }

  lemma NoNewlineAppend(a: seq<string>, b: seq<string>)
    requires forall i :: 0 <= i < |a| ==> '\n' !in a[i]
    requires forall i :: 0 <= i < |b| ==> '\n' !in b[i]
    ensures forall i :: 0 <= i < |a + b| ==> '\n' !in (a + b)[i]
  {
    forall i | 0 <= i < |a + b| ensures '\n' !in (a + b)[i] {
      if i >= |a| { assert (a + b)[i] == b[i - |a|]; }
    }
  }

  lemma BatchLinesNoNewline(lines: seq<string>, b: nat, reply: seq<string>)
    requires b < NumBatches(|lines|)
    requires forall i :: 0 <= i < |reply| ==> '\n' !in reply[i]
    requires forall i :: 0 <= i < |lines| ==> '\n' !in lines[i]
    ensures forall i :: 0 <= i < |Reconciled(Batch(lines, b), reply)| ==> '\n' !in Reconciled(Batch(lines, b), reply)[i]
  {
    var batch := Batch(lines, b);
    forall i | 0 <= i < |batch| ensures '\n' !in batch[i] {
      assert batch[i] == lines[b * BatchMaxLines + i];
    }
    ReconciledNoNewline(batch, reply);
  }

  /** A successful correction of a non-empty transcript has exactly one line per
      input line; when no input line holds a newline (as after `splitlines`),
      splitting the result on newlines, as the driver does, gives back exactly the
      reconciled lines. */
  lemma CorrectionLines(configured: bool, service: nat -> Outcome<string>, start: nat, job: Job)
    requires CountOnly(job.rules) && job.lines != []
    requires forall i :: 0 <= i < |job.lines| ==> '\n' !in job.lines[i]
    ensures var c := GeminiCorrection(configured, service, start, job);
      var r := AfterBatches(service, start, PlanOf(job), NumBatches(|job.lines|));
      c.result.Some? ==> r.out.Some? && Split(c.result.value, '\n') == r.out.value && |r.out.value| == |job.lines|
  {
    var plan := PlanOf(job);
    var n := NumBatches(|job.lines|);
    var r := AfterBatches(service, start, plan, n);
    AfterBatchesCount(service, start, plan, n);
    AfterBatchesNoNewline(service, start, plan, n);
    BatchesConcat(job.lines, n);
    if configured && r.out.Some? {
      NumBatchesCeil(|job.lines|);
      SplitJoin(r.out.value, '\n');
    }
  }

  /** An empty transcript gives `""` and makes no call; without a configured key
      nothing is called either. */
  lemma NoCallCases(service: nat -> Outcome<string>, start: nat, job: Job)
    requires CountOnly(job.rules)
    ensures GeminiCorrection(false, service, start, job) == Correction(None, start, [])
    ensures job.lines == [] ==> GeminiCorrection(true, service, start, job) == Correction(Some(""), start, [])
  {
  }

  /** With the first batch rate-limited on every attempt the correction fails after
      exactly five calls, sleeping 60, 120, 240 and 480 seconds between them. */
  lemma RateLimitedFirstBatch(service: nat -> Outcome<string>, start: nat, job: Job)
    requires CountOnly(job.rules) && job.lines != []
    requires forall j :: start <= j < start + MaxRetries ==> service(j).RateLimited?
    ensures var p := BatchPrompts(job)[0];
      GeminiCorrection(true, service, start, job)
        == Correction(None, start + 5, [Call(p), Sleep(60), Call(p), Sleep(120), Call(p), Sleep(240), Call(p), Sleep(480), Call(p)])
  {
    var plan := PlanOf(job);
    var p := plan.prompts[0];
    AlwaysRateLimited(service, start, p, BaseDelay, MaxRetries);
    assert RetryLog(p, BaseDelay, 0, 4) == [Call(p), Sleep(60), Call(p), Sleep(120), Call(p), Sleep(240), Call(p), Sleep(480)];
    assert AfterBatches(service, start, plan, 1).out.None?;
    FailureSticks(service, start, plan, 1, NumBatches(|job.lines|));
  }

  /** The fixed pause comes only between batches: a successful run logs it after
      every batch but the last, so its last event is a call. */
  lemma PauseOnlyBetweenBatches(service: nat -> Outcome<string>, start: nat, plan: Plan, b: nat)
    requires ValidPlan(plan) && 0 < b <= NumBatches(|plan.lines|)
    ensures var r := AfterBatches(service, start, plan, b);
      r.out.Some? ==> r.log != [] && (if b < NumBatches(|plan.lines|) then r.log[|r.log| - 1] == Sleep(SafeDelay)
                                      else r.log[|r.log| - 1].Call?)
  {
    var prev := AfterBatches(service, start, plan, b - 1);
    if prev.out.Some? {
      BackoffClosedForm(service, prev.next, plan.prompts[b - 1], BaseDelay, MaxRetries, 0);
    }
  }

  /** The body of the batch loop: cut batch `b`, build its prompt, run the retry
      loop, reconcile a reply of the wrong length, extend the corrected lines and
      pause before the next batch. */
  method CorrectBatch(service: nat -> Outcome<string>, job: Job, run: Run, b: nat) returns (after: Run)
    requires CountOnly(job.rules) && b < NumBatches(|job.lines|) && run.out.Some?
    ensures after == BatchStep(service, PlanOf(job), run, b)
  {
    var startIndex := b * BatchMaxLines;
    var endIndex := Min((b + 1) * BatchMaxLines, |job.lines|);
    var batch := job.lines[startIndex..endIndex];
    var prompt := BatchPrompt(job, batch);
    assert prompt == PlanOf(job).prompts[b];
    var a := RunWithBackoff(service, run.next, prompt, BaseDelay, MaxRetries);
    if a.reply.None? {
      return Run(None, a.next, run.log + a.log);
    }
    var apiLines := ReplyLines(a.reply.value);
    var adjusted;
    if |apiLines| != |batch| {
      adjusted := ReconcileLines(batch, apiLines);
    } else {
      adjusted := apiLines;
    }
    var log := run.log + a.log;
    if b < NumBatches(|job.lines|) - 1 {
      log := log + [Sleep(SafeDelay)];
    }
    return Run(Some(run.out.value + adjusted), a.next, log);
  }

  /** The `for batch_idx in range(num_batches)` loop: it stops at the first failed
      batch. */
  method RunBatches(service: nat -> Outcome<string>, start: nat, job: Job) returns (r: Run)
    requires CountOnly(job.rules)
    ensures r == AfterBatches(service, start, PlanOf(job), NumBatches(|job.lines|))
  {
    var numBatches := NumBatches(|job.lines|);
    r := Run(Some([]), start, []);
    for b := 0 to numBatches
      invariant r == AfterBatches(service, start, PlanOf(job), b) && r.out.Some?
    {
      r := CorrectBatch(service, job, r, b);
      if r.out.None? {
        FailureSticks(service, start, PlanOf(job), b + 1, numBatches);
        return;
      }
    }
  }

  /** `get_gemini_correction`. */
  method GetGeminiCorrection(configured: bool, service: nat -> Outcome<string>, start: nat, job: Job)
    returns (c: Correction)
    requires CountOnly(job.rules)
    ensures c == GeminiCorrection(configured, service, start, job)
  {
    if !configured {
      return Correction(None, start, []);
    }
    if |job.lines| == 0 {
      return Correction(Some(""), start, []);
    }
    var r := RunBatches(service, start, job);
    if r.out.None? {
      return Correction(None, r.next, r.log);
    }
    return Correction(Some(Join(r.out.value, "\n")), r.next, r.log);
  }

  // ---------------------------------------------------------------------------
  // execute_gspread_write
  // ---------------------------------------------------------------------------

  /** `execute_gspread_write`: the write is tried up to five times; a 429 is
      retried after `5 * 2^attempt` seconds; no result stands for the re-raised
      error. */
  method ExecuteGspreadWrite<T>(service: nat -> Outcome<T>, start: nat, operation: string) returns (r: Attempts<T>)
    ensures r == Backoff(service, start, operation, GspreadBaseDelay, MaxRetries, 0)
  {
    r := RunWithBackoff(service, start, operation, GspreadBaseDelay, MaxRetries);
  }

  /** A sheet write that keeps hitting the rate limit is tried five times, with
      pauses of 5, 10, 20 and 40 seconds, and then raises. */
  lemma GspreadWriteGivesUp<T>(service: nat -> Outcome<T>, start: nat, operation: string)
    requires forall j :: start <= j < start + MaxRetries ==> service(j).RateLimited?
    ensures Backoff(service, start, operation, GspreadBaseDelay, MaxRetries, 0)
      == Attempts(None, start + 5, [Call(operation), Sleep(5), Call(operation), Sleep(10), Call(operation),
                                    Sleep(20), Call(operation), Sleep(40), Call(operation)])
  {
    AlwaysRateLimited(service, start, operation, GspreadBaseDelay, MaxRetries);
    assert RetryLog(operation, GspreadBaseDelay, 0, 4)
        == [Call(operation), Sleep(5), Call(operation), Sleep(10), Call(operation), Sleep(20), Call(operation), Sleep(40)];
  }
}
