# autosrt correction pipeline, modelled in Dafny

This project models the core of autosrt: the line-preserving LLM correction of
Whisper subtitle transcripts, as four Python scripts do it.

- `sheets_gemini_processor.py` reads each item's `_normal.txt`, writes its lines to
  column A of a sheet and corrects them. The lines are cut into batches of at most 100,
  and each batch has its own prompt and a retry loop with exponential backoff. Every
  reply is reconciled to the batch's line count. The result goes to column B, and the
  item's name enters a JSON ledger, which is then saved atomically.
- `gemini_transcription_colab.py` transcribes audio without a ledger. It corrects all
  lines in one HTTP request, merges Whisper and Gemini columns, and builds SRT text and
  timeline rows.
- `text_segmenter_colab.py` groups the corrected texts of a sheet into 30-minute
  parts, one text file each.
- `local_transcriber.py` transcribes every audio file not yet in its own ledger. It
  writes the plain text and the SRT text, and ledgers the file once the SRT text is
  written.

## How the model is built

Each concept shared between the scripts is one module:
- `TextUtil`: `strip`, `replace`, `split`, `join`, `splitlines`, `str(n)`, zero
  padding and `int`.
- `SrtTime`: SRT timestamps.
- `Reconcile`: reconciling a reply's line count.
- `Retry`: the backoff loop.
- `Subtitles`: cleaning segments, SRT writing and SRT reading.
- `Ledger`: the state file.

Each script has its own module: `SheetsCorrection` and `SheetsDriver`, `ColabGemini`,
`TextSegmenter` and `LocalTranscriber`.

Every loop of the modelled code is a method with invariants. Each method is proved equal to a
specification function over prefixes (`AfterBatches`, `AfterItems`, `AfterFiles`,
`SegAfter`, `CleanLines`, `LocalBlocks`, `RawBlocks`, ...). The promised properties are
proved as lemmas about those functions.

The outside world is given as parameters:
- A remote service is a function from the index of a call to its `Outcome`: a value,
  a rate-limit error or any other error.
- Sleeps and requests are an event log of `Call` and `Sleep` events.
- Each file or item carries flags saying which of its I/O steps fail.
- The disk is a value holding the state file and its `.tmp` sibling.

Times are integer milliseconds.

Where the scripts' documented intent and their code differ, the model follows the
code:
- The sheets processor catches only JSON decoding and `TypeError` when loading its
  ledger. A read error of the state file therefore ends the run (`LoadGeminiState`
  gives `None`, `Drive` gives `LoadFailed`), instead of giving an empty ledger.
- An item whose correction comes back as the empty text is counted but not ledgered
  (`ItemStep`, `Ledgered`).
- The sheets processor opens and reads `{item}_normal.txt` before the item's `try`
  (sheets_gemini_processor.py:395-396), and its caller has no handler. A text file that
  exists but cannot be read or decoded therefore ends the whole run at that item
  instead of skipping it (`TextFile.ReadFails`, `ReadErrorEndsRun`, and
  `Drive` giving `ReadFailed`).
- In the colab script, the worksheet lookups and clears at lines 292-308 are outside any
  handler. A failure there would end the whole run, so it is not modelled as an
  item-level failure.
- In the colab script, `gc.create` and the print of the new spreadsheet's URL
  (gemini_transcription_colab.py:285-287) run inside the `except SpreadsheetNotFound`
  handler, where the sibling `except Exception` at 288-290 does not catch them. A
  failed create therefore ends the whole run, without the 5 s pause and without any
  later file; it is not modelled as an item-level failure either.
  `AudioFile.sheetFails` stands only for an open that raises an error other than
  `SpreadsheetNotFound`, which skips the file.

## Model

| member | source | states |
|---|---|---|
| TextUtil.StripShape | local_transcriber.py:159 | `strip()` removes exactly a leading and a trailing run of whitespace and leaves a text with no whitespace at either end |
| TextUtil.StripIdempotent | local_transcriber.py:159 | stripping a stripped text changes nothing |
| TextUtil.StripEmptyIffBlank | sheets_gemini_processor.py:353 | `s.strip()` is empty exactly when every character of `s` is whitespace |
| TextUtil.Replace | local_transcriber.py:159 | `replace` with an empty replacement never lengthens the text |
| TextUtil.ReplaceAbsent | local_transcriber.py:159 | replacing a phrase that does not occur leaves the text unchanged |
| TextUtil.ReplaceSplice | local_transcriber.py:159 | one occurrence of the phrase between text that cannot start a match is replaced and both sides are kept |
| TextUtil.CountChar | text_segmenter_colab.py:16 | `count(c)` is at most the length and is zero exactly when `c` does not occur |
| TextUtil.Split | sheets_gemini_processor.py:437 | `split(sep)` gives at least one piece and no piece holds the separator |
| TextUtil.JoinSplit | sheets_gemini_processor.py:437 | joining the pieces of a split with the separator gives the text back |
| TextUtil.SplitJoin | sheets_gemini_processor.py:298 | lines without the separator, joined and split again, come back unchanged |
| TextUtil.JoinAppend | sheets_gemini_processor.py:298 | joining two non-empty runs of lines puts exactly one separator between them |
| TextUtil.SplitLines | sheets_gemini_processor.py:416 | no line produced by `splitlines()` holds a line break |
| TextUtil.SplitLinesJoin | sheets_gemini_processor.py:416 | a transcript written as break-free lines whose last line is non-empty, joined by newlines, reads back as the same lines with `splitlines()` (a trailing empty line is dropped by `splitlines()`, so it is excluded) |
| TextUtil.NatToStringValue | gemini_transcription_colab.py:391 | `str(n)` is a non-empty run of digits that reads back as `n` |
| TextUtil.ZeroPadValue | local_transcriber.py:56 | `{n:0wd}` reads back as `n` and is exactly `w` digits wide when `n < 10^w` |
| TextUtil.ParseInt | text_segmenter_colab.py:22-25 | `int(s)` succeeds exactly when the stripped text is a run of digits, or a `+` or `-` followed by one; its value is that of the digits, negated after `-` |
| TextUtil.ParseIntReadsBack | text_segmenter_colab.py:22-25 | an optionally signed run of digits between any whitespace reads back as its value |
| SrtTime.FieldsRecompose | local_transcriber.py:52-55 | minutes and seconds are below 60, milliseconds below 1000, and the fields add back up to the time |
| SrtTime.FormatSrtTimeFields | local_transcriber.py:50-56 | the written time is `HH:MM:SS,mmm` with at least two hour digits, and its fields read back as the time |
| SrtTime.FormatSrtTimeWidth | gemini_transcription_colab.py:53-59 | below 100 hours the written time has the fixed width `DD:DD:DD,DDD` |
| SrtTime.ParseAssembled | text_segmenter_colab.py:14-26 | a text `H:M:S,ms` of four runs of digits reads as `H*3600000 + M*60000 + S*1000 + ms` milliseconds |
| SrtTime.FormatThenParse | text_segmenter_colab.py:14-38 | `srt_time_to_seconds(format(t))` is `t` |
| SrtTime.SecondsToSrtTimeRoundTrip | text_segmenter_colab.py:14-38 | `srt_time_to_seconds(seconds_to_srt_time(t))` is `t`, with a negative time read back as 0 |
| SrtTime.TimeTextNoNewline | sheets_gemini_processor.py:169 | a fixed-width time holds no newline |
| Reconcile.ReplyLines | sheets_gemini_processor.py:258 | `text.strip().split('\n')` has at least one line and no line holds a newline |
| Reconcile.ReplyLinesJoin | gemini_transcription_colab.py:193 | joining the reply lines with newlines gives the stripped reply |
| Reconcile.Reconciled | sheets_gemini_processor.py:259-270 | the reconciled batch has exactly the original's line count; line `i` is the reply's where it has one and the original's otherwise; an equal-length reply is kept as it is |
| Reconcile.ReconciledNoNewline | sheets_gemini_processor.py:259-270 | no reconciled line holds a newline when neither the original nor the reply lines do |
| Reconcile.ReconcileLines | sheets_gemini_processor.py:261-268 | the `adjusted_lines` loop computes the reconciled batch |
| Retry.BackoffClosedForm | sheets_gemini_processor.py:252-287 | with `k` rate-limit errors in a row before the last attempt, the loop makes `k + 1` calls, sleeps `base * 2^a` after the `a`-th, and returns the value of the last call only if it succeeded |
| Retry.BackoffCalls | sheets_gemini_processor.py:252-287 | between one and `max_retries` calls are made, and each uses one service outcome |
| Retry.AlwaysRateLimited | sheets_gemini_processor.py:276-284 | a service that only rate-limits gets exactly `max_retries` calls with doubling delays, and the loop gives up |
| Retry.OtherErrorStops | sheets_gemini_processor.py:285-287 | any other error ends the loop after its one call, with no result |
| Retry.RateLimitedStep | sheets_gemini_processor.py:277-281 | a rate-limit error before the last attempt logs the call and a `base * 2^attempt` sleep, then retries with the next outcome |
| Retry.RunWithBackoff | gemini_transcription_colab.py:156-176 | the `for attempt in range(max_retries)` loop computes the backoff specification |
| Subtitles.CleanText | local_transcriber.py:159 | a cleaned segment text has no whitespace at either end |
| Subtitles.CleanTextWithoutPhrase | local_transcriber.py:159 | a text without the caption credit is only stripped |
| Subtitles.CleanTextPhraseOnly | gemini_transcription_colab.py:330-335 | a segment that is only the caption credit is cleaned away |
| Subtitles.KeptIndicesSound | local_transcriber.py:157-161 | the kept positions are increasing positions of segments whose cleaned text is non-empty |
| Subtitles.KeptIndicesComplete | local_transcriber.py:157-161 | every segment whose cleaned text is non-empty is kept |
| Subtitles.CleanLinesSpec | local_transcriber.py:157-161 | transcript line `k` is the cleaned text of the `k`-th kept segment, so no line is empty |
| Subtitles.CleanLinesStep | gemini_transcription_colab.py:332-335 | one more segment adds its cleaned text when it is non-empty, and nothing otherwise |
| Subtitles.TranscriptionLines | local_transcriber.py:157-161 | the loop filling `whisper_transcription_lines` computes the kept cleaned texts |
| Subtitles.NormalTextSplits | local_transcriber.py:163 | splitting the plain transcript on newlines gives the lines back when none holds a newline |
| Subtitles.SrtTextAppend | local_transcriber.py:175-177 | appending a block to the SRT text appends that block's three lines and the blank line |
| Subtitles.ColabBlocksStep | gemini_transcription_colab.py:377-393 | one more segment adds at most its own block, numbered with its position among all segments |
| Subtitles.ColabBlocksSpec | gemini_transcription_colab.py:377-393 | block `k` is the `k`-th kept segment, numbered by its 1-based position among all segments, so dropped segments leave gaps |
| Subtitles.LocalBlocksStep | local_transcriber.py:169-178 | one more segment adds at most its own block, numbered after the blocks so far |
| Subtitles.LocalBlocksSpec | local_transcriber.py:167-178 | block `k` is the `k`-th kept segment, numbered `k + 1` with no gaps |
| Subtitles.NumberingsAgree | local_transcriber.py:167-178 | the colab and local SRT blocks differ only in their numbers, and coincide when no segment is dropped |
| Subtitles.ColabSubtitles | gemini_transcription_colab.py:374-393 | the colab loop writes the colab blocks as SRT text, and the timeline rows are those same blocks |
| Subtitles.LocalSrt | local_transcriber.py:166-178 | the local loop with its `srt_sequence_number` counter writes the locally numbered blocks as SRT text |
| Subtitles.TextRun | sheets_gemini_processor.py:170 | the text of a block runs over the non-empty lines up to the first empty line |
| Subtitles.ParseSrtContent | sheets_gemini_processor.py:164-180 | the block-reading loop computes `parse_srt_content` |
| Subtitles.ReadStep | sheets_gemini_processor.py:167-179 | reading a block at line `i` adds that block and goes on after its text |
| Subtitles.RawBlocksSkip | sheets_gemini_processor.py:167-173 | a line that does not open a block is passed over |
| Subtitles.EntryTextOneLine | sheets_gemini_processor.py:178 | a one-line stripped text is read back unchanged |
| Subtitles.TimeLineParts | sheets_gemini_processor.py:169 | a time line of two fixed-width times opens a block, and its two times are read back |
| Subtitles.SrtTextLines | local_transcriber.py:175-177 | the lines of an SRT text are the four lines of each block, in order, then one empty line |
| Subtitles.ReadBlocks | sheets_gemini_processor.py:167-173 | the lines of written blocks are read back as one raw block per written block |
| Subtitles.WriteThenRead | sheets_gemini_processor.py:164-180 | reading written SRT text gives back every block's number, times and text, in order |
| Subtitles.LocalSrtReadsBack | local_transcriber.py:166-178 | the local SRT output reads back as its kept segments, numbered 1, 2, 3, ..., with their times and cleaned texts |
| Ledger.LoadersAgree | sheets_gemini_processor.py:139-150 | both loaders give exactly the names of a list file and nothing for any other content; only the sheets loader lets a read error through |
| Ledger.Enumerate | sheets_gemini_processor.py:158 | `list(set)` lists every name of the set exactly once |
| Ledger.SaveGeminiState | sheets_gemini_processor.py:152-162 | a save writes an enumeration of the set and leaves the disk as the fault left it, swallowing the error |
| Ledger.SaveProcessedFiles | local_transcriber.py:31-48 | as above, but after a failure an existing temporary file is removed unless removing fails |
| Ledger.StateFileNeverPartial | sheets_gemini_processor.py:157-159 | the state file keeps what it held, or after a completed save holds the complete written list |
| Ledger.SaveThenLoad | local_transcriber.py:31-40 | a completed save loads back to the saved set with either loader, and leaves no temporary file |
| Ledger.FailedSaveKeepsLedger | sheets_gemini_processor.py:155-162 | a failed save changes nothing that either loader sees |
| SheetsCorrection.SelectPrompts | sheets_gemini_processor.py:353-360 | the handout-based prompt pair is chosen when some character of the handout text is not whitespace, and the knowledge-based pair when every character is |
| SheetsCorrection.FormatOneField | sheets_gemini_processor.py:231 | `format` puts the value where the field was and keeps the literal text around it |
| SheetsCorrection.FormatRulesCount | sheets_gemini_processor.py:54-80 | either shipped rules template, formatted with a count, is its own text with the count in place of `{batch_line_count}` |
| SheetsCorrection.ShippedRulesFormat | sheets_gemini_processor.py:54-80 | both shipped rules templates have `batch_line_count` as their only field, so `format` never raises on them |
| SheetsCorrection.ShippedFormatRules | sheets_gemini_processor.py:231 | either shipped rules template, formatted for a batch, has the batch's line count where its placeholder was and is otherwise unchanged |
| SheetsCorrection.NumBatchesCeil | sheets_gemini_processor.py:213 | `num_batches` is the ceiling of `n / 100`, and it is zero exactly for no lines |
| SheetsCorrection.BatchSize | sheets_gemini_processor.py:219-225 | every batch holds 1 to 100 lines, so the empty-batch `continue` is never taken; every batch but the last holds exactly 100 |
| SheetsCorrection.BatchesConcat | sheets_gemini_processor.py:219-222 | the batches are contiguous and together they are exactly the transcript, in order |
| SheetsCorrection.BatchPrompts | sheets_gemini_processor.py:228-250 | there is one prompt per batch |
| SheetsCorrection.PlanOf | sheets_gemini_processor.py:219-250 | the batch plan keeps the transcript lines and has one prompt per batch |
| SheetsCorrection.FailureSticks | sheets_gemini_processor.py:283-287 | once a batch fails, no later batch runs and nothing more is logged |
| SheetsCorrection.AfterBatchesCount | sheets_gemini_processor.py:258-270 | after successful batches there are exactly as many corrected lines as lines in those batches |
| SheetsCorrection.AfterBatchesNoNewline | sheets_gemini_processor.py:258-270 | no corrected line holds a newline when no transcript line does |
| SheetsCorrection.CorrectionLines | sheets_gemini_processor.py:298 | a successful correction has one line per transcript line, and splitting it on newlines gives exactly the reconciled lines |
| SheetsCorrection.NoCallCases | sheets_gemini_processor.py:188-211 | without an API key the result is `None`, and for no lines it is `""`; neither makes a call |
| SheetsCorrection.RateLimitedFirstBatch | sheets_gemini_processor.py:252-287 | a first batch rate-limited on every attempt fails the correction after five calls 60, 120, 240 and 480 s apart |
| SheetsCorrection.PauseOnlyBetweenBatches | sheets_gemini_processor.py:293-295 | the 15 s pause follows every successful batch but the last, and a successful run's last event is a call |
| SheetsCorrection.CorrectBatch | sheets_gemini_processor.py:220-295 | the batch loop body computes one batch step |
| SheetsCorrection.RunBatches | sheets_gemini_processor.py:219-295 | the batch loop computes all batches, stopping at the first failed one |
| SheetsCorrection.GetGeminiCorrection | sheets_gemini_processor.py:186-298 | `get_gemini_correction` computes the correction specification |
| SheetsCorrection.ExecuteGspreadWrite | sheets_gemini_processor.py:86-106 | a sheet write is retried with base delay 5 s and at most five attempts |
| SheetsCorrection.GspreadWriteGivesUp | sheets_gemini_processor.py:92-99 | a write that keeps hitting the rate limit is tried five times with pauses of 5, 10, 20 and 40 s, and then raises |
| SheetsDriver.ItemLedger | sheets_gemini_processor.py:436-443 | the ledger grows only by this item, exactly when it needed a correction, got a non-empty one and column B was written |
| SheetsDriver.SkippedItemMakesNoCall | sheets_gemini_processor.py:422-425 | a ledgered item, an item without lines, without a readable file or with a failing sheet uses no service outcome and adds at most the 15 s pause |
| SheetsDriver.RunLedger | sheets_gemini_processor.py:385-457 | a name is in the final ledger exactly when it was loaded or some item of that name was corrected and written |
| SheetsDriver.LedgerGrows | sheets_gemini_processor.py:442 | the ledger never loses a name during a run |
| SheetsDriver.CorrectedOnce | sheets_gemini_processor.py:422-443 | once an item is ledgered, no later item of the same name reaches the correction |
| SheetsDriver.ColumnBRows | sheets_gemini_processor.py:436-439 | the corrected text written to column B has one row per transcript line |
| SheetsDriver.ReadErrorEndsRun | sheets_gemini_processor.py:395-396 | an unreadable text file ends the run at its item: no later item is read, corrected, ledgered or counted |
| SheetsDriver.LastLedgeredSome | sheets_gemini_processor.py:442-443 | the last ledgered item entered the ledger, no later item did, and the ledger has not changed since |
| SheetsDriver.LastLedgeredNone | sheets_gemini_processor.py:442-443 | when no item was ledgered, the final ledger is the loaded one |
| SheetsDriver.ProcessItem | sheets_gemini_processor.py:386-457 | one iteration computes the item step; an item not newly ledgered leaves the disk alone; a newly ledgered one is saved at once, so after a completed save the state file holds exactly the new ledger with no temporary file, and after a failed one it loads as before |
| SheetsDriver.ProcessItems | sheets_gemini_processor.py:385-457 | the item loop computes the driver specification, the state file never lists a name missing from the ledger, is untouched when no item was ledgered, and holds exactly the final ledger when the last ledgered item was saved without a fault |
| SheetsDriver.ProcessTranscriptions | sheets_gemini_processor.py:364-371 | without a client or with a ledger read error nothing is touched; otherwise the disk ends as the item loop leaves it, also when a text-file read error ends the run |
| ColabGemini.AnswerGiven | gemini_transcription_colab.py:188-212 | an answer is given exactly when the response envelope holds a non-empty text |
| ColabGemini.AnswerPassthrough | gemini_transcription_colab.py:193-197 | a reply with as many stripped lines as were sent is returned unchanged, not stripped |
| ColabGemini.AnswerReconciled | gemini_transcription_colab.py:198-209 | any other reply gives exactly one line per input line, each the reply's line where there is one and the input's otherwise |
| ColabGemini.ReadAnswer | gemini_transcription_colab.py:188-220 | the `final_corrected_lines` loop computes the answer |
| ColabGemini.ColabCalls | gemini_transcription_colab.py:151-186 | with a key there are one to five requests, each using one outcome; the events are the retry loop's, followed by the 15 s pause exactly when a response came back, so the log ends on a pause exactly then; without a response there is no result; without a key nothing happens |
| ColabGemini.ColabRateLimited | gemini_transcription_colab.py:164-172 | a service that only answers 429 gets five identical requests 10, 20, 40 and 80 s apart, and there is no result |
| ColabGemini.ColabResult | gemini_transcription_colab.py:181-209 | a result needs a response with a non-empty text; it is that text when the line counts match, and otherwise one line per input line |
| ColabGemini.GetGeminiCorrection | gemini_transcription_colab.py:94-220 | `get_gemini_correction` computes the colab correction specification |
| ColabGemini.MergeColumns | gemini_transcription_colab.py:358-363 | the merged sheet has as many rows as the longer column, row `i` holding line `i` of each column or "" |
| ColabGemini.NoHandoutNoCall | gemini_transcription_colab.py:344-355 | without lines or without handout text no request is made, column B stays empty and only the file pause is logged |
| ColabGemini.ColumnALines | gemini_transcription_colab.py:339-372 | column A holds the cleaned lines in order, and an empty transcript without corrections writes the single placeholder cell |
| ColabGemini.ColumnBAligned | gemini_transcription_colab.py:345-368 | a correction with as many lines as were sent fills column B line for line beside column A |
| ColabGemini.FileStepOutputs | gemini_transcription_colab.py:272-412 | a file adds an output exactly when it was transcribed |
| ColabGemini.RunOutputs | gemini_transcription_colab.py:272-412 | the run has one output per transcribed file, in file order, each with its SRT text made of its timeline rows |
| ColabGemini.ProcessAudioFile | gemini_transcription_colab.py:272-412 | one iteration of the file loop computes the file step |
| ColabGemini.ProcessAudioFiles | gemini_transcription_colab.py:245-412 | the file loop, with the blank-handout fallback, computes the run specification |
| TextSegmenter.ReadTimeData | text_segmenter_colab.py:139-148 | one time entry per row after the header; rows with a missing time are kept |
| TextSegmenter.TotalPartsCeil | text_segmenter_colab.py:172-173 | `total_parts` is at least 1, and for a positive duration it is the ceiling of duration over 30 minutes |
| TextSegmenter.SegStepConsistent | text_segmenter_colab.py:185-229 | one item keeps the loop's invariant: parts numbered from 1 and non-empty, holding the texts seen, in order |
| TextSegmenter.SegInvariant | text_segmenter_colab.py:185-229 | the loop invariant holds after every prefix of the items |
| TextSegmenter.SegmentedPartition | text_segmenter_colab.py:185-248 | a completed run writes every text exactly once, in order, in non-empty parts numbered 1, 2, 3, ...; a run ended by a raise has written a prefix of them |
| TextSegmenter.NewPartRule | text_segmenter_colab.py:193-226 | a part is closed exactly when the item starts at or after the block's end and the part holds texts; the closed part ends at the earliest of the previous end, the block end and the duration |
| TextSegmenter.PartsWithinTotal | text_segmenter_colab.py:172-226 | while every item starts before the end of the audio, no part number exceeds `total_parts` |
| TextSegmenter.CrashSticks | text_segmenter_colab.py:190-191 | once a time text has raised, nothing changes any more |
| TextSegmenter.SegItem | text_segmenter_colab.py:186-229 | the loop body reads the item's times and computes one segmentation step |
| TextSegmenter.SegmentParts | text_segmenter_colab.py:177-248 | the segmentation loop and the final write compute the segmentation specification |
| TextSegmenter.PartFileNamesDistinct | text_segmenter_colab.py:203 | distinct part numbers give distinct file names |
| TextSegmenter.PartTextLines | text_segmenter_colab.py:213-217 | a part file splits into the title, the time line, a blank line and one line per text |
| TextSegmenter.TimeLineReadsBack | text_segmenter_colab.py:211 | the part's time line is 29 characters without a newline, and its two times read back as the part's start and end |
| TextSegmenter.TitleNoNewline | text_segmenter_colab.py:204 | the header title `{name} Part {k} of {total}` holds no newline |
| TextSegmenter.TimesPartition | text_segmenter_colab.py:163-248 | a completed run from the texts and times writes every text once, in order, in parts numbered 1, 2, 3, ... |
| TextSegmenter.SheetsPartition | text_segmenter_colab.py:122-248 | a completed run writes every corrected text of the sheet once, in order, in parts numbered 1, 2, 3, ... |
| TextSegmenter.SegmentSpreadsheet | text_segmenter_colab.py:122-248 | `main` from the reading of the worksheets on computes the sheet specification, including its early exits |
| LocalTranscriber.MarkRule | local_transcriber.py:211-213 | the ledger grows only by this file, exactly when it was not yet processed, transcribed and its SRT written; the plain-text write does not matter |
| LocalTranscriber.ProcessedFileSkipped | local_transcriber.py:123-125 | a file already in the ledger is skipped and nothing changes |
| LocalTranscriber.UnmarkedFailures | local_transcriber.py:152-209 | a transcription error, a failed directory or a failed SRT write leaves the file out of the ledger |
| LocalTranscriber.MarkedBefore | local_transcriber.py:121-213 | a name in the ledger was loaded or marked by an earlier file |
| LocalTranscriber.MarkStays | local_transcriber.py:212 | a marked file's name stays in the ledger for the rest of the run |
| LocalTranscriber.LedgerGrows | local_transcriber.py:212 | the ledger never loses a name during a run |
| LocalTranscriber.RunMarks | local_transcriber.py:121-213 | a name is in the final ledger exactly when it was loaded or some file of that name was marked |
| LocalTranscriber.TranscribedOnce | local_transcriber.py:121-125 | a file marked once is never transcribed again in the same run |
| LocalTranscriber.ProcessFile | local_transcriber.py:121-213 | one iteration computes the file step; the state file never lists a name the ledger lacks, changes only when the file is marked, and lists exactly the ledger after a good save |
| LocalTranscriber.ProcessAudioFiles | local_transcriber.py:72-213 | the file loop running from the loaded ledger computes the run specification, and the state file stays within the ledger |

## Left out

- Floating-point seconds: times are integer milliseconds. The `int(...)` truncations of
  `format_srt_time` and the float rounding of `milliseconds / 1000.0` are not modelled.
- The SRT regular expression at sheets_gemini_processor.py:167-172 is modelled as a
  block reader over lines. It reads the files these scripts write. It does not model
  the regex's behaviour on texts with stray whitespace, `\r`, or times that are not
  two-digit.
- I/O and foreign APIs are not modelled: Whisper transcription, gspread, `requests`,
  `pypdf`, `google.generativeai`, the Colab drive, auth, upload and secrets, and
  `display`/logging/`print`. Their results are parameters: segments, failure flags,
  service outcomes and whether a key is configured.
- `extract_text_from_pdf_dir` in both scripts and the PDF clean-up and upload of
  `initial_setup`: the handout text is a parameter (`Setup.pdfContext`, or
  `ColabGemini.PdfContext` of what was extracted).
- The classification of exceptions by their message text (`"429"`,
  `resourceexhausted`, `rate limit`, status 429) is not modelled: the service's
  `Outcome` says directly whether a call was rate-limited.
- The early exits before the loops are not modelled: authentication, drive mount,
  model load, a missing input directory, no audio files, no item directories,
  directory listing and sorting, and the segmenter's `input()` prompt. The loops take
  the list of files or items as given.
- Sheet contents are not modelled beyond the rows written. In particular, the sheets
  processor clears the worksheet and rewrites column A (sheets_gemini_processor.py:415-418)
  before it checks the ledger, so on a re-run an already ledgered item loses its
  column B and does not get it back; the model does not track what the sheet holds.
- Sheet writes are failure flags: `Item.setupFails` and `Item.columnBFails` for the
  driver, and `AudioFile.sheetFails` for opening the colab spreadsheet. The driver's
  sheet steps go through `execute_gspread_write` (sheets_gemini_processor.py:413, 415,
  418, 439), each with its own 5/10/20/40 s backoff; the driver's event log records
  none of those calls or sleeps, and `SheetsCorrection.ExecuteGspreadWrite` models
  that retry loop on its own, unused by `SheetsDriver`. The colab
  updates and clears inside the file's `try`, and the write of its `_subtitle.srt`
  file, are recorded as outputs and not as possible failures.
- SheetsCorrection.ExecuteGspreadWrite: it is given the default `max_retries=5`. The
  loop for `max_retries=0`, which returns `None` without a call, follows from
  `Retry.Backoff` but is not used by any caller.
- The ledger's JSON content is abstract (`Store`). A list with an unhashable element
  is `UnhashableList`. A list holding hashable elements that are not strings, such as
  numbers, is not modelled.
- `int()` accepting underscores inside a time field and non-ASCII decimal digits (such
  as full-width digits) is not modelled. Only an optional sign and ASCII digits, with
  surrounding whitespace, parse.
- Some guards cannot fire, and the model shows why instead of modelling them as code:
  - `if not current_batch_lines: continue` at sheets_gemini_processor.py:224-225
    (`BatchSize`);
  - the `for ... else` at sheets_gemini_processor.py:288-290, since the last attempt
    always returns;
  - the `response is None or not response.ok` check at
    gemini_transcription_colab.py:181-183;
  - the `else item_end_seconds` at text_segmenter_colab.py:209, since a part is only
    closed when it holds texts, so `i > 0`.
- The unused `current_part_block_start_seconds` of the segmenter is not modelled.
- The `IOError` of a segment file write is swallowed by the source. The model records
  the part as written.
- The final count message at text_segmenter_colab.py:250 is not modelled.
- A `KeyError` from a rules template with other fields: the shipped templates have only
  `batch_line_count` (`ShippedRulesFormat`), and the correction requires that
  (`CountOnly`).
- Concurrency of the ledger file with other processes is not modelled. The disk
  changes only through the modelled saves.
- SrtTime.FormatSrtTimeWidth: stated only below 100 hours, where `{h:02d}` has two
  digits.
- Subtitles.LocalSrtReadsBack: stated only for segments below 100 hours whose cleaned
  text is one line, the blocks the reader gives back whole.
- TextSegmenter.PartTextLines: stated only for part times below 100 hours, a
  newline-free name and newline-free texts.
- TextSegmenter.PartsWithinTotal: stated only when every item starts before the last
  item's end. With unordered times the header can say "Part 3 of 2".
- ColabGemini edge case: a reply made only of whitespace is a non-empty text. Column B
  then gets one empty line (`ColumnB`), as in the source. No lemma about alignment
  covers it.
