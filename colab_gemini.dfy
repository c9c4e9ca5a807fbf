/** The colab transcriber: every audio file is transcribed, its cleaned lines go to
    column A of the file's "文本校對" sheet and, when there is handout text, one
    Gemini call corrects them for column B; the SRT text and the "時間軸" rows are
    built from the same segments.

    `get_gemini_correction` here sends all lines in one HTTP request, retries only a
    429 response, pauses 15 s after a successful call, checks the response envelope
    and reconciles the reply's line count with the input. */
module ColabGemini {
  import opened Wrappers
  import opened TextUtil
  import opened Retry
  import opened Reconcile
  import opened Subtitles

  const MaxRetries: nat := 5
  const BaseDelay: nat := 10
  /** The pause after a successful call. */
  const AfterCallDelay: nat := 15
  /** The pause after every audio file whose sheet could be opened or created. */
  const BetweenFilesDelay: nat := 5

  // ---------------------------------------------------------------------------
  // The prompt
  // ---------------------------------------------------------------------------

  const PromptIntro: string := "\n    你是一個佛學大師，精通經律論三藏十二部經典。\n    以下文本是whisper產生的字幕文本，關於觀無量壽經、善導大師觀經四帖疏、傳通記的內容。\n    有很多聽打錯誤，幫我依據我提供的上課講義校對文本，嚴格依照以下規則，直接修正錯誤：\n\n    上課講義內容（作為校對參考，請仔細閱讀）：\n    ---\n    "
  const PromptTextHead: string := "\n    ---\n\n    以下是需要校對的字幕文本 (共 "
  const PromptTextCount: string := " 行):\n    ---\n    "
  const PromptRulesHead: string := "\n    ---\n\n    校對規則：\n    1. 這是講座字幕的文本。請逐行處理提供的「字幕文本」。\n    2. **嚴格依照原本的斷句輸出，保持每一行的獨立性，不要合併或拆分行。輸出結果必須與輸入的行數完全相同 (共 "
  const PromptRulesTail: string := " 行)。**\n    3. 如果某一行不需要修改，請直接輸出原始該行內容。\n    4. 根據「上課講義內容」修正「字幕文本」中的任何聽打錯誤或不準確之處。\n    5. 不要加標點符號。\n    6. 輸出繁體中文。\n    "

  /** `full_prompt`: the handout text, then the line count and the lines joined by
      newlines, then the rules with the line count again. */
  function ColabPrompt(lines: seq<string>, pdfContext: string): string {
    PromptIntro + pdfContext + PromptTextHead + NatToString(|lines|) + PromptTextCount
      + Join(lines, "\n") + PromptRulesHead + NatToString(|lines|) + PromptRulesTail
  }

  // ---------------------------------------------------------------------------
  // The reply
  // ---------------------------------------------------------------------------

  /** A response that passed `raise_for_status`, as far as the code looks at it:
      either `response.json()` or the lookups into it raise, or the object is read
      and `candidates[0].content.parts[0].text` is there or not (`None` when one of
      the keys or list elements is missing or falsy). */
  datatype Envelope = Malformed | Body(text: Option<string>)

  /** What is made of a successful response: nothing when the envelope is broken or
      the text is missing or empty; the text itself when its stripped lines are as
      many as the input lines; otherwise the reconciled lines, cut to the input
      length, joined by newlines. */
  function Answer(lines: seq<string>, e: Envelope): Option<string> {
    if e.Malformed? || e.text.None? || e.text.value == "" then None
    else
      var reply := ReplyLines(e.text.value);
      if |reply| == |lines| then Some(e.text.value)
      else Some(Join(Reconciled(lines, reply)[..|lines|], "\n"))
  }

  /** An answer is given exactly when the envelope holds a non-empty text. */
  lemma AnswerGiven(lines: seq<string>, e: Envelope)
    ensures Answer(lines, e).Some? <==> e.Body? && e.text.Some? && e.text.value != ""
  {
    if e.Body? && e.text.Some? && e.text.value != "" {
      var reply := ReplyLines(e.text.value);
      if |reply| != |lines| {
        assert Answer(lines, e) == Some(Join(Reconciled(lines, reply)[..|lines|], "\n"));
      }
    }
  }

  /** A reply with as many lines as were sent is returned as it came, untouched by
      the strip that counted its lines. */
  lemma AnswerPassthrough(lines: seq<string>, text: string)
    requires text != "" && |ReplyLines(text)| == |lines|
    ensures Answer(lines, Body(Some(text))) == Some(text)
    ensures ReplyLines(Answer(lines, Body(Some(text))).value) == ReplyLines(text)
  {
  }

  /** Any other reply gives exactly one line per input line: line `i` is the reply's
      line `i` when it has one and the input line `i` otherwise. */
  lemma {:induction false} AnswerReconciled(lines: seq<string>, text: string)
    requires text != "" && |ReplyLines(text)| != |lines| && lines != []
    requires forall i :: 0 <= i < |lines| ==> '\n' !in lines[i]
    ensures var out := Split(Answer(lines, Body(Some(text))).value, '\n');
      var reply := ReplyLines(text);
      && |out| == |lines|
      && forall i :: 0 <= i < |lines| ==> out[i] == if i < |reply| then reply[i] else lines[i]
  {
    var reply := ReplyLines(text);
    var r := Reconciled(lines, reply);
    assert r[..|lines|] == r;
    ReconciledNoNewline(lines, reply);
    SplitJoin(r, '\n');
  }

  /** The `final_corrected_lines` loop and the answer around it. */
  method ReadAnswer(lines: seq<string>, e: Envelope) returns (r: Option<string>)
    ensures r == Answer(lines, e)
  {
    if e.Malformed? || e.text.None? || e.text.value == "" {
      return None;
    }
    var text := e.text.value;
    var corrected := ReplyLines(text);
    if |corrected| == |lines| {
      return Some(text);
    }
    var finalLines := ReconcileLines(lines, corrected);
    finalLines := finalLines[..|lines|];
    return Some(Join(finalLines, "\n"));
  }

  // ---------------------------------------------------------------------------
  // get_gemini_correction
  // ---------------------------------------------------------------------------

  /** `get_gemini_correction(lines, pdf_context)`. Without an API key nothing is
      sent. Otherwise the prompt is posted under the retry loop; when a response
      comes back, the 15 s pause follows and the response is read. */
  function ColabCorrection(configured: bool, service: nat -> Outcome<Envelope>, start: nat,
                           lines: seq<string>, pdfContext: string): Correction
  {
    if !configured then Correction(None, start, [])
    else
      var a := Backoff(service, start, ColabPrompt(lines, pdfContext), BaseDelay, MaxRetries, 0);
      if a.reply.None? then Correction(None, a.next, a.log)
      else Correction(Answer(lines, a.reply.value), a.next, a.log + [Sleep(AfterCallDelay)])
  }

  /** With a key, one to five requests are made, each using one service outcome,
      and the events are those of the retry loop, followed by the 15 s pause exactly
      when a response came back, so that the run ends on a pause exactly then;
      without a response there is no result. Without a key, nothing happens. */
  lemma ColabCalls(configured: bool, service: nat -> Outcome<Envelope>, start: nat,
                   lines: seq<string>, pdfContext: string)
    ensures var c := ColabCorrection(configured, service, start, lines, pdfContext);
      && (!configured ==> c == Correction(None, start, []))
      && (configured ==> 1 <= CallCount(c.log) <= MaxRetries && c.next == start + CallCount(c.log))
    ensures var c := ColabCorrection(configured, service, start, lines, pdfContext);
      var a := Backoff(service, start, ColabPrompt(lines, pdfContext), BaseDelay, MaxRetries, 0);
      configured ==>
        && (a.reply.Some? ==> c.log == a.log + [Sleep(AfterCallDelay)])
        && (a.reply.None? ==> c.log == a.log && c.result.None?)
        && c.log != [] && (c.log[|c.log| - 1].Sleep? <==> a.reply.Some?)
  {
    if configured {
      var prompt := ColabPrompt(lines, pdfContext);
      var a := Backoff(service, start, prompt, BaseDelay, MaxRetries, 0);
      BackoffCalls(service, start, prompt, BaseDelay, MaxRetries);
      BackoffClosedForm(service, start, prompt, BaseDelay, MaxRetries, 0);
      if a.reply.Some? {
        CallCountAppend(a.log, [Sleep(AfterCallDelay)]);
        assert CallCount([Sleep(AfterCallDelay)]) == 0 by {
          assert [Sleep(AfterCallDelay)][1..] == [];
        }
      }
    }
  }

  /** A service that answers every request with 429 gets five identical requests
      10, 20, 40 and 80 s apart, and no result; the after-call pause is not
      taken. */
  lemma ColabRateLimited(service: nat -> Outcome<Envelope>, start: nat, lines: seq<string>, pdfContext: string)
    requires forall j :: start <= j < start + MaxRetries ==> service(j).RateLimited?
    ensures var p := ColabPrompt(lines, pdfContext);
      ColabCorrection(true, service, start, lines, pdfContext)
        == Correction(None, start + 5, [Call(p), Sleep(10), Call(p), Sleep(20), Call(p), Sleep(40), Call(p), Sleep(80), Call(p)])
  {
    var p := ColabPrompt(lines, pdfContext);
    AlwaysRateLimited(service, start, p, BaseDelay, MaxRetries);
    assert RetryLog(p, BaseDelay, 0, 4) == [Call(p), Sleep(10), Call(p), Sleep(20), Call(p), Sleep(40), Call(p), Sleep(80)];
  }

  /** A result needs a response whose envelope holds a non-empty text. The result
      is that text when its stripped lines match the input's count; otherwise, for
      input lines without newlines, it splits into exactly the input's count of
      lines. */
  lemma ColabResult(configured: bool, service: nat -> Outcome<Envelope>, start: nat,
                    lines: seq<string>, pdfContext: string)
    requires lines != [] && forall i :: 0 <= i < |lines| ==> '\n' !in lines[i]
    ensures var c := ColabCorrection(configured, service, start, lines, pdfContext);
      var a := Backoff(service, start, ColabPrompt(lines, pdfContext), BaseDelay, MaxRetries, 0);
      c.result.Some? ==>
        && configured && a.reply.Some? && a.reply.value.Body? && a.reply.value.text.Some?
        && var text := a.reply.value.text.value;
           && text != ""
           && (|ReplyLines(text)| == |lines| ==> c.result.value == text)
           && (|ReplyLines(text)| != |lines| ==> |Split(c.result.value, '\n')| == |lines|)
  {
    var c := ColabCorrection(configured, service, start, lines, pdfContext);
    if c.result.Some? {
      var a := Backoff(service, start, ColabPrompt(lines, pdfContext), BaseDelay, MaxRetries, 0);
      AnswerGiven(lines, a.reply.value);
      var text := a.reply.value.text.value;
      if |ReplyLines(text)| != |lines| {
        AnswerReconciled(lines, text);
      }
    }
  }

  /** `get_gemini_correction`. */
  method GetGeminiCorrection(configured: bool, service: nat -> Outcome<Envelope>, start: nat,
                             lines: seq<string>, pdfContext: string) returns (c: Correction)
    ensures c == ColabCorrection(configured, service, start, lines, pdfContext)
  {
    if !configured {
      return Correction(None, start, []);
    }
    var prompt := ColabPrompt(lines, pdfContext);
    var a := RunWithBackoff(service, start, prompt, BaseDelay, MaxRetries);
    if a.reply.None? {
      return Correction(None, a.next, a.log);
    }
    var answer := ReadAnswer(lines, a.reply.value);
    return Correction(answer, a.next, a.log + [Sleep(AfterCallDelay)]);
  }

  // ---------------------------------------------------------------------------
  // One audio file
  // ---------------------------------------------------------------------------

  /** The handout text the run works with: what the PDFs gave, or the empty text
      when nothing was extracted or only whitespace. */
  function PdfContext(extracted: Option<string>): string {
    if extracted.None? || Strip(extracted.value) == "" then "" else extracted.value
  }

  /** Correction is only asked for when there are lines and handout text. */
  predicate WantsCorrection(lines: seq<string>, pdfContext: string) {
    lines != [] && pdfContext != ""
  }

  /** Column B: the lines of a non-empty corrected text, or nothing. */
  function ColumnB(c: Correction): seq<string> {
    if c.result.Some? && c.result.value != "" then ReplyLines(c.result.value) else []
  }

  function Max(a: nat, b: nat): nat {
    if a >= b then a else b
  }

  /** `combined_data_for_normal_sheet`: row `i` holds line `i` of each column, or ""
      where that column is shorter. */
  function MergedRows(a: seq<string>, b: seq<string>): seq<seq<string>> {
    seq(Max(|a|, |b|), i requires 0 <= i => [if i < |a| then a[i] else "", if i < |b| then b[i] else ""])
  }

  /** The loop that builds `combined_data_for_normal_sheet`. */
  method MergeColumns(a: seq<string>, b: seq<string>) returns (rows: seq<seq<string>>)
    ensures |rows| == |a| || |rows| == |b|
    ensures |rows| >= |a| && |rows| >= |b|
    ensures forall i :: 0 <= i < |rows| ==>
      rows[i] == [if i < |a| then a[i] else "", if i < |b| then b[i] else ""]
    ensures rows == MergedRows(a, b)
  {
    var maxLines := if |a| >= |b| then |a| else |b|;
    rows := [];
    for i := 0 to maxLines
      invariant |rows| == i
      invariant forall k :: 0 <= k < i ==> rows[k] == [if k < |a| then a[k] else "", if k < |b| then b[k] else ""]
    {
      var whisperLine := if i < |a| then a[i] else "";
      var geminiLine := if i < |b| then b[i] else "";
      rows := rows + [[whisperLine, geminiLine]];
    }
  }

  const NoTranscription: string := "無轉錄內容"

  /** What is written to the "文本校對" sheet. */
  function NormalSheet(rows: seq<seq<string>>): seq<seq<string>> {
    if rows != [] then rows else [[NoTranscription]]
  }

  /** One audio file: its name, whether opening its spreadsheet raises an error
      other than `SpreadsheetNotFound`, and the recognised segments, or nothing when
      transcription raises. */
  datatype AudioFile = AudioFile(name: string, sheetFails: bool, segments: Option<seq<Segment>>)

  /** What a transcribed file leaves behind: the "文本校對" rows, the SRT text and
      the "時間軸" data rows (the sheet is written only when there is at least
      one). */
  datatype FileOutput = FileOutput(name: string, normalSheet: seq<seq<string>>, srt: string, timeline: seq<SrtBlock>)

  /** The run so far: the outputs, the next unused service outcome and the events. */
  datatype ColabRun = ColabRun(outputs: seq<FileOutput>, next: nat, log: seq<Event>)

  /** The correction the file loop calls: `correct(next, lines)` is what
      `get_gemini_correction(lines, pdf_context_text)` does with the service outcomes
      from `next` on. */
  type Corrector = (nat, seq<string>) -> Correction

  ghost predicate IsColabCorrection(configured: bool, service: nat -> Outcome<Envelope>, pdfContext: string,
                                    correct: Corrector)
  {
    forall next: nat, lines: seq<string> :: correct(next, lines)
      == ColabCorrection(configured, service, next, lines, pdfContext)
  }

  /** One iteration of the file loop. A spreadsheet whose opening raises an error
      other than `SpreadsheetNotFound` skips the file and its pause; a transcription error abandons the file after nothing was
      written. */
  function FileStep(correct: Corrector, pdfContext: string, r: ColabRun, f: AudioFile): ColabRun {
    if f.sheetFails then r
    else if f.segments.None? then r.(log := r.log + [Sleep(BetweenFilesDelay)])
    else
      var cues := Cues(f.segments.value);
      Transcribed(correct, pdfContext, r, f.name, CleanLines(cues), ColabBlocks(cues))
  }

  /** A transcribed file with its cleaned lines and its SRT blocks: the lines are
      corrected when there is handout text, the sheet rows, the SRT text and the
      timeline rows are recorded, and the file pause follows. */
  function Transcribed(correct: Corrector, pdfContext: string, r: ColabRun, name: string,
                       lines: seq<string>, blocks: seq<SrtBlock>): ColabRun
  {
    var c := if WantsCorrection(lines, pdfContext) then correct(r.next, lines) else Correction(None, r.next, []);
    var out := FileOutput(name, NormalSheet(MergedRows(lines, ColumnB(c))), SrtText(blocks), blocks);
    ColabRun(r.outputs + [out], c.next, r.log + c.log + [Sleep(BetweenFilesDelay)])
  }

  function AfterFiles(correct: Corrector, pdfContext: string, r0: ColabRun, files: seq<AudioFile>, k: nat): ColabRun
    requires k <= |files|
  {
    if k == 0 then r0 else FileStep(correct, pdfContext, AfterFiles(correct, pdfContext, r0, files, k - 1), files[k - 1])
  }

  function Last<T>(s: seq<T>): T
    requires s != []
  {
    s[|s| - 1]
  }

  /** Without lines or without handout text no request is made: no service outcome
      is used, only the file pause is logged, and column B is empty. */
  lemma NoHandoutNoCall(correct: Corrector, pdfContext: string, r: ColabRun, name: string,
                        lines: seq<string>, blocks: seq<SrtBlock>)
    requires !WantsCorrection(lines, pdfContext)
    ensures var after := Transcribed(correct, pdfContext, r, name, lines, blocks);
      var sheet := Last(after.outputs).normalSheet;
      && after.next == r.next
      && after.log == r.log + [Sleep(BetweenFilesDelay)]
      && (lines == [] ==> sheet == [[NoTranscription]])
      && (lines != [] ==> |sheet| == |lines| && forall i :: 0 <= i < |lines| ==> sheet[i] == [lines[i], ""])
  {
    assert r.log + [] == r.log;
  }

  /** Column A of a transcribed file's sheet holds its cleaned lines in order, one
      row each, and the sheet has no more rows than the longer column; an empty
      transcript without corrected lines writes the single placeholder cell. */
  lemma ColumnALines(correct: Corrector, pdfContext: string, r: ColabRun, name: string,
                     lines: seq<string>, blocks: seq<SrtBlock>)
    ensures var after := Transcribed(correct, pdfContext, r, name, lines, blocks);
      var sheet := Last(after.outputs).normalSheet;
      && |after.outputs| == |r.outputs| + 1
      && (lines == [] ==> sheet == [[NoTranscription]])
      && (lines != [] ==> |sheet| >= |lines| && forall i :: 0 <= i < |lines| ==> sheet[i][0] == lines[i])
  {
  }

  /** A correction that comes back with as many lines as were sent fills column B
      line for line: the sheet has one row per line, row `i` holding line `i` and
      its correction. */
  lemma ColumnBAligned(correct: Corrector, pdfContext: string, r: ColabRun, name: string,
                       lines: seq<string>, blocks: seq<SrtBlock>, text: string)
    requires WantsCorrection(lines, pdfContext)
    requires correct(r.next, lines).result == Some(text)
    requires |ReplyLines(text)| == |lines|
    ensures var sheet := Last(Transcribed(correct, pdfContext, r, name, lines, blocks).outputs).normalSheet;
      |sheet| == |lines| && forall i :: 0 <= i < |lines| ==> sheet[i] == [lines[i], ReplyLines(text)[i]]
  {
    if text == "" {
      assert ReplyLines(text) == [""];
    }
  }

  /** The names of the files that get as far as a transcript, in order. */
  function TranscribedNames(files: seq<AudioFile>): seq<string> {
    if files == [] then []
    else
      var n := |files| - 1;
      var f := files[n];
      TranscribedNames(files[..n]) + if !f.sheetFails && f.segments.Some? then [f.name] else []
  }

  /** One output per name, in order, each with its SRT text made of its timeline
      rows. */
  predicate OutputsMatch(outs: seq<FileOutput>, names: seq<string>) {
    && |outs| == |names|
    && (forall i :: 0 <= i < |outs| ==> outs[i].name == names[i])
    && (forall i :: 0 <= i < |outs| ==> outs[i].srt == SrtText(outs[i].timeline))
  }

  /** A transcribed file adds one output under its own name. */
  lemma TranscribedOutput(correct: Corrector, pdfContext: string, r: ColabRun, name: string,
                          lines: seq<string>, blocks: seq<SrtBlock>, names: seq<string>)
    requires OutputsMatch(r.outputs, names)
    ensures OutputsMatch(Transcribed(correct, pdfContext, r, name, lines, blocks).outputs, names + [name])
  {
    var outs := Transcribed(correct, pdfContext, r, name, lines, blocks).outputs;
    assert outs[..|r.outputs|] == r.outputs;
  }

  /** One file adds an output exactly when it got a transcript. */
  lemma FileStepOutputs(correct: Corrector, pdfContext: string, r: ColabRun, f: AudioFile, names: seq<string>)
    requires OutputsMatch(r.outputs, names)
    ensures OutputsMatch(FileStep(correct, pdfContext, r, f).outputs,
                         names + if !f.sheetFails && f.segments.Some? then [f.name] else [])
  {
    if !f.sheetFails && f.segments.Some? {
      var cues := Cues(f.segments.value);
      TranscribedOutput(correct, pdfContext, r, f.name, CleanLines(cues), ColabBlocks(cues), names);
    } else {
      assert names + [] == names;
    }
  }

  /** After the first `k` files there is one output per file that got a transcript,
      in file order, and each output's SRT text is made of its timeline rows. */
  lemma {:induction false} RunOutputs(correct: Corrector, pdfContext: string, start: nat, files: seq<AudioFile>, k: nat)
    requires k <= |files|
    ensures OutputsMatch(AfterFiles(correct, pdfContext, ColabRun([], start, []), files, k).outputs,
                         TranscribedNames(files[..k]))
  {
    if k > 0 {
      RunOutputs(correct, pdfContext, start, files, k - 1);
      assert files[..k][..k - 1] == files[..k - 1];
      FileStepOutputs(correct, pdfContext, AfterFiles(correct, pdfContext, ColabRun([], start, []), files, k - 1),
                      files[k - 1], TranscribedNames(files[..k - 1]));
    }
  }

  /** One iteration of the file loop. */
  method ProcessAudioFile(configured: bool, service: nat -> Outcome<Envelope>, pdfContext: string,
                          ghost correct: Corrector, r: ColabRun, f: AudioFile) returns (after: ColabRun)
    requires IsColabCorrection(configured, service, pdfContext, correct)
    ensures after == FileStep(correct, pdfContext, r, f)
  {
    if f.sheetFails {
      return r;
    }
    if f.segments.None? {
      return r.(log := r.log + [Sleep(BetweenFilesDelay)]);
    }
    var segs := f.segments.value;
    var lines := TranscriptionLines(segs);
    var c := Correction(None, r.next, []);
    if lines != [] && pdfContext != "" {
      c := GetGeminiCorrection(configured, service, r.next, lines, pdfContext);
      assert c == correct(r.next, lines);
    }
    var geminiLines: seq<string> := [];
    if c.result.Some? && c.result.value != "" {
      geminiLines := ReplyLines(c.result.value);
    }
    var combined := MergeColumns(lines, geminiLines);
    var sheet := if combined != [] then combined else [[NoTranscription]];
    var srt, rows := ColabSubtitles(segs);
    after := ColabRun(r.outputs + [FileOutput(f.name, sheet, srt, rows)], c.next, r.log + c.log + [Sleep(BetweenFilesDelay)]);
  }

  /** The loop over `audio_files_to_process`. */
  method ProcessAudioFiles(configured: bool, service: nat -> Outcome<Envelope>, extracted: Option<string>,
                           ghost correct: Corrector, start: nat, files: seq<AudioFile>) returns (r: ColabRun)
    requires IsColabCorrection(configured, service, PdfContext(extracted), correct)
    ensures r == AfterFiles(correct, PdfContext(extracted), ColabRun([], start, []), files, |files|)
  {
    var pdfContext := PdfContext(extracted);
    r := ColabRun([], start, []);
    for i := 0 to |files|
      invariant r == AfterFiles(correct, pdfContext, ColabRun([], start, []), files, i)
    {
      r := ProcessAudioFile(configured, service, pdfContext, correct, r, files[i]);
    }
  }
}
