/** The text segmenter: the corrected texts of a spreadsheet (column B of "文本校對")
    and their times (columns B and C of "時間軸") are grouped into 30-minute parts,
    each written to its own text file with a two-line header.

    Times are integer milliseconds. A time text that `int` rejects raises outside any
    handler and ends the run; the parts written until then stay on disk. */
module TextSegmenter {
  import opened Wrappers
  import opened TextUtil
  import opened SrtTime
  import Subtitles

  /** `30 * 60` seconds. */
  const SegmentDurationMs: int := 1800000

  /** The `-1.0` s marker for "no first item yet" of the current part. */
  const Unset: int := -1000

  // ---------------------------------------------------------------------------
  // Reading the sheets
  // ---------------------------------------------------------------------------

  /** `corrected_texts`: column B of every row after the header, stripped, or the
      empty text for a row without a column B. */
  function CorrectedTexts(textRows: seq<seq<string>>): (r: seq<string>)
    requires |textRows| >= 1
    ensures |r| == |textRows| - 1
    ensures forall i :: 0 <= i < |r| ==> r[i] == if |textRows[i + 1]| > 1 then Strip(textRows[i + 1][1]) else ""
  {
    seq(|textRows| - 1, i requires 0 <= i < |textRows| - 1 =>
      if |textRows[i + 1]| > 1 then Strip(textRows[i + 1][1]) else "")
  }

  /** One row of `time_data`: the start and end time texts, empty where the row is
      short. */
  datatype TimeEntry = TimeEntry(start: string, end: string)

  function EntryOf(row: seq<string>): TimeEntry {
    TimeEntry(if |row| > 1 then row[1] else "", if |row| > 2 then row[2] else "")
  }

  function TimeData(timelineRows: seq<seq<string>>): seq<TimeEntry>
    requires |timelineRows| >= 1
  {
    seq(|timelineRows| - 1, i requires 0 <= i < |timelineRows| - 1 => EntryOf(timelineRows[i + 1]))
  }

  /** The loop that builds `time_data` from the rows after the header. A row with a
      missing time is only warned about and kept. */
  method ReadTimeData(timelineRows: seq<seq<string>>) returns (timeData: seq<TimeEntry>)
    requires |timelineRows| >= 1
    ensures |timeData| == |timelineRows| - 1
    ensures forall i :: 0 <= i < |timeData| ==> timeData[i] == EntryOf(timelineRows[i + 1])
  {
    timeData := [];
    var rows := timelineRows[1..];
    for k := 0 to |rows|
      invariant |timeData| == k
      invariant forall i :: 0 <= i < k ==> timeData[i] == EntryOf(timelineRows[i + 1])
    {
      var row := rows[k];
      var startStr := if |row| > 1 then row[1] else "";
      var endStr := if |row| > 2 then row[2] else "";
      timeData := timeData + [TimeEntry(startStr, endStr)];
    }
  }

  // ---------------------------------------------------------------------------
  // Total duration and part count
  // ---------------------------------------------------------------------------

  /** `total_parts`: the number of 30-minute blocks a positive duration needs, and 1
      otherwise. */
  function TotalParts(durationMs: int): (n: nat)
  {
    if durationMs > 0 then (durationMs + SegmentDurationMs - 1) / SegmentDurationMs else 1
  }

  /** The part count is at least 1, and for a positive duration it is the ceiling:
      the blocks before the last do not reach the end, all of them do. */
  lemma TotalPartsCeil(durationMs: int)
    ensures TotalParts(durationMs) >= 1
    ensures durationMs > 0 ==>
      (TotalParts(durationMs) - 1) * SegmentDurationMs < durationMs <= TotalParts(durationMs) * SegmentDurationMs
  {
    if durationMs > 0 {
      var t := TotalParts(durationMs);
      var a := durationMs + SegmentDurationMs - 1;
      assert a == t * SegmentDurationMs + a % SegmentDurationMs;
    }
  }

  // ---------------------------------------------------------------------------
  // The segmentation loop
  // ---------------------------------------------------------------------------

  /** A part as it is written: its number, its texts, and the times of its header
      line. */
  datatype Part = Part(number: nat, texts: seq<string>, startMs: int, endMs: int)

  /** The loop's variables: `part_number`, `current_part_texts`,
      `current_part_first_item_actual_start_seconds`, the end time of the previous
      item, the parts written so far, and whether a time text has raised. */
  datatype SegState = SegState(partNumber: nat, current: seq<string>, firstStart: int, prevEnd: int,
                               parts: seq<Part>, crashed: bool)

  function Min(a: int, b: int): int {
    if a <= b then a else b
  }

  const Initial: SegState := SegState(1, [], Unset, 0, [], false)

  /** An item's start and end as `srt_time_to_seconds` reads them, `None` where it
      raises. */
  datatype Timed = Timed(start: Option<int>, end: Option<int>)

  function Parsed(times: seq<TimeEntry>): (r: seq<Timed>)
    ensures |r| == |times|
  {
    seq(|times|, i requires 0 <= i < |times| => Timed(SrtTimeToMs(times[i].start), SrtTimeToMs(times[i].end)))
  }

  /** One iteration: the item's times are read; the first item of a part sets the
      part's start; an item starting at or after the end of the current 30-minute
      block, while the part holds texts, closes the part and opens the next one,
      whose number is one more however far the item lies ahead. */
  function SegStep(durationMs: int, st: SegState, text: string, t: Timed): SegState {
    if st.crashed then st
    else if t.start.None? || t.end.None? then st.(crashed := true)
    else
      var s := t.start.value;
      var target := st.partNumber * SegmentDurationMs;
      var first := if st.firstStart == Unset then s else st.firstStart;
      if s >= target && st.current != [] then
        var part := Part(st.partNumber, st.current, first, Min(Min(st.prevEnd, target), durationMs));
        SegState(st.partNumber + 1, [text], s, t.end.value, st.parts + [part], false)
      else
        SegState(st.partNumber, st.current + [text], first, t.end.value, st.parts, false)
  }

  /** The state after the first `k` items. */
  function SegAfter(durationMs: int, texts: seq<string>, timed: seq<Timed>, k: nat): SegState
    requires k <= |texts| == |timed|
  {
    if k == 0 then Initial
    else SegStep(durationMs, SegAfter(durationMs, texts, timed, k - 1), texts[k - 1], timed[k - 1])
  }

  /** The part written after the loop, when texts are left: it starts at the part's
      first item (0 if none was recorded) and ends at the last item's end, capped by
      the duration. */
  function FinalPart(durationMs: int, st: SegState): Part {
    Part(st.partNumber, st.current, if st.firstStart != Unset then st.firstStart else 0,
         Min(st.prevEnd, durationMs))
  }

  /** How the loop ends: all parts written, or a time text raised after `written`
      were written. */
  datatype SegEnd = Crashed(written: seq<Part>) | Done(parts: seq<Part>)

  function SegmentedParsed(durationMs: int, texts: seq<string>, timed: seq<Timed>): SegEnd
    requires |texts| == |timed|
  {
    var st := SegAfter(durationMs, texts, timed, |texts|);
    if st.crashed then Crashed(st.parts)
    else Done(st.parts + if st.current != [] then [FinalPart(durationMs, st)] else [])
  }

  function Segmented(durationMs: int, texts: seq<string>, times: seq<TimeEntry>): SegEnd
    requires |texts| == |times|
  {
    SegmentedParsed(durationMs, texts, Parsed(times))
  }

  function Flatten(parts: seq<Part>): seq<string> {
    if parts == [] then [] else Flatten(parts[..|parts| - 1]) + parts[|parts| - 1].texts
  }

  lemma FlattenAppend(parts: seq<Part>, p: Part)
    ensures Flatten(parts + [p]) == Flatten(parts) + p.texts
  {
    assert (parts + [p])[..|parts|] == parts;
  }

  /** Every part written holds texts and parts are numbered 1, 2, 3, ... */
  predicate WellNumbered(parts: seq<Part>) {
    forall j :: 0 <= j < |parts| ==> parts[j].number == j + 1 && parts[j].texts != []
  }

  /** What holds of the loop's state after it has seen the texts `seen`: the parts
      are numbered from 1 and non-empty and the current part is the next number;
      the parts written and the current part hold the texts seen, in order, and the
      current part is empty only before the first item. After a raise, the parts
      written hold a prefix of the texts seen. */
  predicate Consistent(st: SegState, seen: seq<string>) {
    && WellNumbered(st.parts) && st.partNumber == |st.parts| + 1
    && (!st.crashed ==> Flatten(st.parts) + st.current == seen && (seen != [] ==> st.current != []))
    && (st.crashed ==> Flatten(st.parts) <= seen)
  }

  lemma SegStepConsistent(durationMs: int, st: SegState, seen: seq<string>, text: string, t: Timed)
    requires Consistent(st, seen)
    ensures Consistent(SegStep(durationMs, st, text, t), seen + [text])
  {
    var after := SegStep(durationMs, st, text, t);
    if !st.crashed && !after.crashed && |after.parts| == |st.parts| + 1 {
      FlattenAppend(st.parts, after.parts[|st.parts|]);
      assert after.parts == st.parts + [after.parts[|st.parts|]];
    }
    if st.crashed {
      assert Flatten(st.parts) <= seen + [text];
    }
  }

  /** The loop invariant, over the first `k` items. */
  lemma {:induction false} SegInvariant(durationMs: int, texts: seq<string>, timed: seq<Timed>, k: nat)
    requires k <= |texts| == |timed|
    ensures Consistent(SegAfter(durationMs, texts, timed, k), texts[..k])
  {
    if k > 0 {
      SegInvariant(durationMs, texts, timed, k - 1);
      SegStepConsistent(durationMs, SegAfter(durationMs, texts, timed, k - 1), texts[..k - 1], texts[k - 1], timed[k - 1]);
      assert texts[..k] == texts[..k - 1] + [texts[k - 1]];
    }
  }

  /** A completed run writes the texts exactly once each, in order, in non-empty
      parts numbered 1, 2, 3, ...; a run ended by a raise has written non-empty,
      numbered parts holding a prefix of the texts. */
  lemma SegmentedPartition(durationMs: int, texts: seq<string>, times: seq<TimeEntry>)
    requires |texts| == |times|
    ensures Segmented(durationMs, texts, times).Done? ==>
      var parts := Segmented(durationMs, texts, times).parts;
      Flatten(parts) == texts && WellNumbered(parts) && (texts != [] ==> parts != [])
    ensures Segmented(durationMs, texts, times).Crashed? ==>
      WellNumbered(Segmented(durationMs, texts, times).written)
      && Flatten(Segmented(durationMs, texts, times).written) <= texts
  {
    var timed := Parsed(times);
    var st := SegAfter(durationMs, texts, timed, |texts|);
    SegInvariant(durationMs, texts, timed, |texts|);
    assert texts[..|texts|] == texts;
    if !st.crashed && st.current != [] {
      FlattenAppend(st.parts, FinalPart(durationMs, st));
    }
    if !st.crashed && st.current == [] {
      assert st.parts + [] == st.parts;
    }
  }

  /** When a part is closed: exactly when the item's start has reached the end of the
      current block and the part holds texts. The new part then has the next number
      and starts with this item alone, and the closed part ends at the earliest of
      the previous item's end, the block's end and the duration. */
  lemma NewPartRule(durationMs: int, st: SegState, text: string, t: Timed)
    requires !st.crashed && t.start.Some? && t.end.Some?
    ensures var s := t.start.value;
      var after := SegStep(durationMs, st, text, t);
      && (|after.parts| == |st.parts| + 1 <==> s >= st.partNumber * SegmentDurationMs && st.current != [])
      && (|after.parts| == |st.parts| + 1 ==>
            && after.partNumber == st.partNumber + 1 && after.current == [text] && after.firstStart == s
            && Last(after.parts).endMs == Min(Min(st.prevEnd, st.partNumber * SegmentDurationMs), durationMs))
      && (|after.parts| == |st.parts| ==> after.partNumber == st.partNumber && after.current == st.current + [text])
  {
  }

  function Last<T>(s: seq<T>): T
    requires s != []
  {
    s[|s| - 1]
  }

  lemma MulLess(a: int, b: int, d: int)
    requires d > 0 && a * d < b * d
    ensures a < b
  {
  }

  /** While every item starts before the end of the audio, no part number exceeds
      the part count written in the headers. */
  lemma {:induction false} PartsWithinTotal(durationMs: int, texts: seq<string>, timed: seq<Timed>, k: nat)
    requires k <= |texts| == |timed|
    requires forall i :: 0 <= i < |timed| && timed[i].start.Some? ==> timed[i].start.value < durationMs
    ensures SegAfter(durationMs, texts, timed, k).partNumber <= TotalParts(durationMs)
  {
    TotalPartsCeil(durationMs);
    if k > 0 {
      PartsWithinTotal(durationMs, texts, timed, k - 1);
      var prev := SegAfter(durationMs, texts, timed, k - 1);
      var st := SegAfter(durationMs, texts, timed, k);
      if st.partNumber != prev.partNumber {
        var s := timed[k - 1].start.value;
        assert prev.partNumber * SegmentDurationMs <= s < durationMs;
        MulLess(prev.partNumber, TotalParts(durationMs), SegmentDurationMs);
      }
    }
  }

  /** The `for i in range(len(time_data))` loop and the final write after it. */
  method SegmentParts(durationMs: int, texts: seq<string>, times: seq<TimeEntry>) returns (o: SegEnd)
    requires |texts| == |times|
    ensures o == Segmented(durationMs, texts, times)
  {
    ghost var timed := Parsed(times);
    var st := Initial;
    for i := 0 to |times|
      invariant st == SegAfter(durationMs, texts, timed, i) && !st.crashed
      invariant i > 0 ==> SrtTimeToMs(times[i - 1].end) == Some(st.prevEnd)
      invariant i == 0 ==> st.current == []
    {
      assert timed[i] == Timed(SrtTimeToMs(times[i].start), SrtTimeToMs(times[i].end));
      st := SegItem(durationMs, st, texts[i], times, i);
      if st.crashed {
        CrashSticks(durationMs, texts, timed, i + 1, |texts|);
        return Crashed(st.parts);
      }
    }
    if st.current != [] {
      return Done(st.parts + [FinalPart(durationMs, st)]);
    }
    return Done(st.parts);
  }

  /** One iteration of the loop body for item `i`: its times are read (a time that
      does not read raises), then the item joins the current part or opens the next. */
  method SegItem(durationMs: int, st: SegState, text: string, times: seq<TimeEntry>, i: nat)
    returns (after: SegState)
    requires i < |times| && !st.crashed
    requires i > 0 ==> SrtTimeToMs(times[i - 1].end) == Some(st.prevEnd)
    requires i == 0 ==> st.current == []
    ensures after == SegStep(durationMs, st, text, Timed(SrtTimeToMs(times[i].start), SrtTimeToMs(times[i].end)))
    ensures !after.crashed ==> SrtTimeToMs(times[i].end) == Some(after.prevEnd)
  {
    var start := SrtTimeToMs(times[i].start);
    var end := SrtTimeToMs(times[i].end);
    if start.None? || end.None? {
      return st.(crashed := true);
    }
    var itemStart := start.value;
    var itemEnd := end.value;
    var targetEnd := st.partNumber * SegmentDurationMs;
    var firstStart := st.firstStart;
    if firstStart == Unset {
      firstStart := itemStart;
    }
    if itemStart >= targetEnd && st.current != [] {
      // a part holding texts has seen an earlier item, so `i > 0` here
      var actualEnd := SrtTimeToMs(times[i - 1].end).value;
      var part := Part(st.partNumber, st.current, firstStart, Min(Min(actualEnd, targetEnd), durationMs));
      return SegState(st.partNumber + 1, [text], itemStart, itemEnd, st.parts + [part], false);
    }
    return SegState(st.partNumber, st.current + [text], firstStart, itemEnd, st.parts, false);
  }

  /** A raise ends the loop: nothing changes afterwards. */
  lemma {:induction false} CrashSticks(durationMs: int, texts: seq<string>, timed: seq<Timed>, j: nat, k: nat)
    requires j <= k <= |texts| == |timed|
    requires SegAfter(durationMs, texts, timed, j).crashed
    ensures SegAfter(durationMs, texts, timed, k) == SegAfter(durationMs, texts, timed, j)
    decreases k - j
  {
    if j < k {
      CrashSticks(durationMs, texts, timed, j, k - 1);
    }
  }

  // ---------------------------------------------------------------------------
  // Part files
  // ---------------------------------------------------------------------------

  /** `f"{name}M{k:02d}.txt"`. */
  function PartFileName(name: string, k: nat): string {
    name + "M" + ZeroPad(k, 2) + ".txt"
  }

  /** Distinct part numbers give distinct file names, so no part overwrites
      another. */
  lemma PartFileNamesDistinct(name: string, j: nat, k: nat)
    requires j != k
    ensures PartFileName(name, j) != PartFileName(name, k)
  {
    var zj, zk := ZeroPad(j, 2), ZeroPad(k, 2);
    if PartFileName(name, j) == PartFileName(name, k) {
      var pre := name + "M";
      assert PartFileName(name, j) == pre + zj + ".txt" && PartFileName(name, k) == pre + zk + ".txt";
      assert |zj| == |zk|;
      assert zj == PartFileName(name, j)[|pre|..|pre| + |zj|];
      assert zk == PartFileName(name, k)[|pre|..|pre| + |zk|];
      ZeroPadValue(j, 2);
      ZeroPadValue(k, 2);
    }
  }

  /** The file's text: `"{name} Part {k} of {total}"`, the time range, a blank line,
      and the part's texts joined by newlines. */
  function PartText(name: string, total: nat, p: Part): string {
    Title(name, total, p) + "\n"
      + Subtitles.TimeLine(SecondsToSrtTime(p.startMs), SecondsToSrtTime(p.endMs)) + "\n\n"
      + Join(p.texts, "\n")
  }

  function Title(name: string, total: nat, p: Part): string {
    name + " Part " + NatToString(p.number) + " of " + NatToString(total)
  }

  /** A part file read line by line: the title, the time line, a blank line, then
      one line per text, as long as the times stay below 100 hours and no text
      holds a newline (the time line's two times read back by `TimeLineReadsBack`). */
  lemma PartTextLines(name: string, total: nat, p: Part)
    requires '\n' !in name && p.texts != []
    requires forall i :: 0 <= i < |p.texts| ==> '\n' !in p.texts[i]
    requires p.startMs < 360000000 && p.endMs < 360000000
    ensures Split(PartText(name, total, p), '\n')
      == [Title(name, total, p), Subtitles.TimeLine(SecondsToSrtTime(p.startMs), SecondsToSrtTime(p.endMs)), ""] + p.texts
  {
    var t := Subtitles.TimeLine(SecondsToSrtTime(p.startMs), SecondsToSrtTime(p.endMs));
    TimeLineReadsBack(p.startMs, p.endMs);
    TitleNoNewline(name, total, p);
    HeaderSplit(Title(name, total, p), t, Join(p.texts, "\n"));
    SplitJoin(p.texts, '\n');
  }

  lemma TitleNoNewline(name: string, total: nat, p: Part)
    requires '\n' !in name
    ensures '\n' !in Title(name, total, p)
  {
    Subtitles.DigitsNoNewline(NatToString(p.number));
    Subtitles.DigitsNoNewline(NatToString(total));
  }

  /** The time line of a part below 100 hours: no newline, 29 characters, and both
      times read back. */
  lemma TimeLineReadsBack(startMs: int, endMs: int)
    requires startMs < 360000000 && endMs < 360000000
    ensures var t := Subtitles.TimeLine(SecondsToSrtTime(startMs), SecondsToSrtTime(endMs));
      && '\n' !in t && |t| == 29
      && SrtTimeToMs(t[..12]) == Some(if startMs < 0 then 0 else startMs)
      && SrtTimeToMs(t[17..]) == Some(if endMs < 0 then 0 else endMs)
  {
    var a, b := SecondsToSrtTime(startMs), SecondsToSrtTime(endMs);
    PartTime(startMs);
    PartTime(endMs);
    Subtitles.TimeLineParts(a, b);
    Subtitles.TimeLineNoNewline(a, b);
  }

  /** A part time below 100 hours is written in the fixed width, without a newline,
      and reads back as itself, clamped at zero. */
  lemma PartTime(ms: int)
    requires ms < 360000000
    ensures var t := SecondsToSrtTime(ms);
      IsTimeText(t) && '\n' !in t && SrtTimeToMs(t) == Some(if ms < 0 then 0 else ms)
  {
    var c: nat := if ms < 0 then 0 else ms;
    assert Hours(c) < 100;
    FormatSrtTimeWidth(c);
    TimeTextNoNewline(SecondsToSrtTime(ms));
    SecondsToSrtTimeRoundTrip(ms);
  }

  /** Two newline-free header lines and a blank line before the body. */
  lemma HeaderSplit(title: string, t: string, body: string)
    requires '\n' !in title && '\n' !in t
    ensures Split(title + "\n" + t + "\n\n" + body, '\n') == [title, t, ""] + Split(body, '\n')
  {
    assert title + "\n" + t + "\n\n" + body == title + "\n" + (t + "\n" + ("" + "\n" + body));
    SplitPrefix("", body, '\n');
    SplitPrefix(t, "" + "\n" + body, '\n');
    SplitPrefix(title, t + "\n" + ("" + "\n" + body), '\n');
  }

  // ---------------------------------------------------------------------------
  // The whole run after the sheets are open
  // ---------------------------------------------------------------------------

  /** How `main` ends once both worksheets are open: an empty sheet, differing
      entry counts, no entries, a time that raised, or parts written. */
  datatype Outcome = NoTextRows | NoTimelineRows | CountMismatch | NoEntries | Ran(total: nat, result: SegEnd)

  /** From the worksheets' rows to the parts. */
  function SegmentSheets(textRows: seq<seq<string>>, timelineRows: seq<seq<string>>): Outcome {
    if |textRows| <= 1 then NoTextRows
    else if |timelineRows| <= 1 then NoTimelineRows
    else
      var texts := CorrectedTexts(textRows);
      var times := TimeData(timelineRows);
      if |texts| != |times| then CountMismatch
      else SegmentTimes(texts, times)
  }

  /** From the texts and their times to the parts. The duration is the last item's
      end; a duration text that raises ends the run before any part. */
  function SegmentTimes(texts: seq<string>, times: seq<TimeEntry>): Outcome
    requires |texts| == |times|
  {
    if texts == [] then NoEntries
    else
      match SrtTimeToMs(times[|times| - 1].end)
        case None => Ran(1, Crashed([]))
        case Some(d) => Ran(TotalParts(d), Segmented(d, texts, times))
  }

  /** On a completed run, the parts hold every text once, in order, and are
      numbered 1, 2, 3, ... */
  lemma TimesPartition(texts: seq<string>, times: seq<TimeEntry>)
    requires |texts| == |times|
    requires SegmentTimes(texts, times).Ran? && SegmentTimes(texts, times).result.Done?
    ensures var parts := SegmentTimes(texts, times).result.parts;
      Flatten(parts) == texts && WellNumbered(parts) && parts != []
  {
    SegmentedPartition(SrtTimeToMs(times[|times| - 1].end).value, texts, times);
  }

  /** On a completed run over consistent sheets, the parts hold every corrected
      text once, in order, and are numbered 1, 2, 3, ... */
  lemma SheetsPartition(textRows: seq<seq<string>>, timelineRows: seq<seq<string>>)
    requires SegmentSheets(textRows, timelineRows).Ran? && SegmentSheets(textRows, timelineRows).result.Done?
    ensures var parts := SegmentSheets(textRows, timelineRows).result.parts;
      Flatten(parts) == CorrectedTexts(textRows) && WellNumbered(parts) && parts != []
  {
    TimesPartition(CorrectedTexts(textRows), TimeData(timelineRows));
  }

  /** `main` from the reading of the worksheets on. */
  method SegmentSpreadsheet(textRows: seq<seq<string>>, timelineRows: seq<seq<string>>) returns (o: Outcome)
    ensures o == SegmentSheets(textRows, timelineRows)
  {
    if |textRows| <= 1 {
      return NoTextRows;
    }
    if |timelineRows| <= 1 {
      return NoTimelineRows;
    }
    var correctedTexts := CorrectedTexts(textRows);
    var timeData := ReadTimeData(timelineRows);
    assert timeData == TimeData(timelineRows);
    if |correctedTexts| != |timeData| {
      return CountMismatch;
    }
    if correctedTexts == [] {
      return NoEntries;
    }
    var duration := SrtTimeToMs(timeData[|timeData| - 1].end);
    if duration.None? {
      return Ran(1, Crashed([]));
    }
    var totalParts := TotalParts(duration.value);
    var result := SegmentParts(duration.value, correctedTexts, timeData);
    return Ran(totalParts, result);
  }
}
