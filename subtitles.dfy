/** Recognised speech segments turned into subtitle text, and SRT text read back.

    Both transcribers clean every segment the same way and keep the segments whose
    cleaned text is non-empty. The colab script numbers an SRT block with the segment's
    position in the unfiltered list; the local transcriber numbers the kept blocks
    1, 2, 3, ... The sheets processor reads SRT text back block by block. */
module Subtitles {
  import opened TextUtil
  import opened SrtTime

  /** The caption credit Whisper hallucinates on silence; it is cut out of every text. */
  const UnwantedPhrase: string := "字幕由 Amara.org 社群提供"

  /** One recognised segment: start and end in milliseconds, and its text. */
  datatype Segment = Segment(startMs: nat, endMs: nat, text: string)

  // ---------------------------------------------------------------------------
  // Cleaning
  // ---------------------------------------------------------------------------

  /** `text.strip().replace(unwanted_phrase, "").strip()`: no whitespace is left at
      either end. */
  function CleanText(text: string): (r: string)
    ensures IsStripped(r)
  {
    StripShape(Replace(Strip(text), UnwantedPhrase, ""));
    Strip(Replace(Strip(text), UnwantedPhrase, ""))
  }

  /** A text without the phrase is only stripped. */
  lemma CleanTextWithoutPhrase(text: string)
    requires !Contains(Strip(text), UnwantedPhrase)
    ensures CleanText(text) == Strip(text)
  {
    ReplaceAbsent(Strip(text), UnwantedPhrase, "");
    StripIdempotent(text);
  }

  /** A text that is the phrase between whitespace is cleaned away. */
  lemma CleanTextPhraseOnly(text: string)
    requires Strip(text) == UnwantedPhrase
    ensures CleanText(text) == ""
  {
    ReplaceSplice("", UnwantedPhrase, "", "");
    assert "" + UnwantedPhrase + "" == UnwantedPhrase;
  }

  /** A segment with its text cleaned, as the output loops see it. */
  datatype Cue = Cue(startMs: nat, endMs: nat, text: string)

  function CueOf(s: Segment): Cue {
    Cue(s.startMs, s.endMs, CleanText(s.text))
  }

  function Cues(segs: seq<Segment>): seq<Cue> {
    seq(|segs|, i requires 0 <= i < |segs| => CueOf(segs[i]))
  }

  /** A segment survives cleaning when something is left of its text. */
  predicate Kept(c: Cue) {
    c.text != ""
  }

  /** The positions of the kept cues, in order. */
  function KeptIndices(cues: seq<Cue>): seq<nat> {
    if cues == [] then []
    else
      var n := |cues| - 1;
      KeptIndices(cues[..n]) + (if Kept(cues[n]) then [n] else [])
  }

  /** The kept positions are increasing positions of kept cues. */
  lemma {:induction false} KeptIndicesSound(cues: seq<Cue>)
    ensures |KeptIndices(cues)| <= |cues|
    ensures forall k :: 0 <= k < |KeptIndices(cues)| ==>
      KeptIndices(cues)[k] < |cues| && Kept(cues[KeptIndices(cues)[k]])
    ensures forall k, l :: 0 <= k < l < |KeptIndices(cues)| ==> KeptIndices(cues)[k] < KeptIndices(cues)[l]
  {
    if cues != [] {
      var n := |cues| - 1;
      KeptIndicesSound(cues[..n]);
      assert forall i :: 0 <= i < n ==> cues[..n][i] == cues[i];
    }
  }

  /** Every kept cue's position is among the kept positions. */
  lemma {:induction false} KeptIndicesComplete(cues: seq<Cue>, i: nat)
    requires i < |cues| && Kept(cues[i])
    ensures i in KeptIndices(cues)
  {
    var n := |cues| - 1;
    if i < n {
      assert cues[..n][i] == cues[i];
      KeptIndicesComplete(cues[..n], i);
    }
  }

  /** The cleaned texts of the kept segments, in segment order. */
  function CleanLines(cues: seq<Cue>): seq<string> {
    if cues == [] then []
    else
      var n := |cues| - 1;
      CleanLines(cues[..n]) + (if Kept(cues[n]) then [cues[n].text] else [])
  }

  /** One more cue adds its text when it is kept and nothing otherwise. */
  lemma CleanLinesStep(cues: seq<Cue>, i: nat)
    requires i < |cues|
    ensures CleanLines(cues[..i + 1]) == CleanLines(cues[..i]) + (if Kept(cues[i]) then [cues[i].text] else [])
  {
    assert cues[..i + 1][..i] == cues[..i];
  }

  /** Line `k` is the text of the `k`-th kept cue, so no line is empty. */
  lemma {:induction false} CleanLinesSpec(cues: seq<Cue>)
    ensures |CleanLines(cues)| == |KeptIndices(cues)|
    ensures forall k :: 0 <= k < |CleanLines(cues)| ==>
      KeptIndices(cues)[k] < |cues| && CleanLines(cues)[k] == cues[KeptIndices(cues)[k]].text && CleanLines(cues)[k] != ""
  {
    if cues != [] {
      var n := |cues| - 1;
      CleanLinesSpec(cues[..n]);
      KeptIndicesSound(cues[..n]);
      assert forall i :: 0 <= i < n ==> cues[..n][i] == cues[i];
    }
  }

  /** The loop that fills `whisper_transcription_lines`. */
  method TranscriptionLines(segs: seq<Segment>) returns (lines: seq<string>)
    ensures lines == CleanLines(Cues(segs))
  {
    var cues := Cues(segs);
    lines := [];
    for i := 0 to |segs|
      invariant lines == CleanLines(cues[..i])
    {
      var cleaned := CleanText(segs[i].text);
      assert cues[i].text == cleaned;
      CleanLinesStep(cues, i);
      if cleaned != "" {
        lines := lines + [cleaned];
      }
    }
    assert cues[..|segs|] == cues;
  }

  /** `"\n".join(whisper_transcription_lines)`. */
  function NormalText(lines: seq<string>): string {
    Join(lines, "\n")
  }

  /** When no cleaned line holds a newline, splitting the plain transcript on newlines
      gives the lines back. */
  lemma NormalTextSplits(cues: seq<Cue>)
    requires CleanLines(cues) != []
    requires forall k :: 0 <= k < |CleanLines(cues)| ==> '\n' !in CleanLines(cues)[k]
    ensures Split(NormalText(CleanLines(cues)), '\n') == CleanLines(cues)
  {
    SplitJoin(CleanLines(cues), '\n');
  }

  // ---------------------------------------------------------------------------
  // SRT blocks
  // ---------------------------------------------------------------------------

  /** One SRT block: its number, start and end time texts, and its text. */
  datatype SrtBlock = SrtBlock(number: nat, start: string, end: string, text: string)

  function TimeLine(start: string, end: string): string {
    start + " --> " + end
  }

  /** `f"{n}\n"`, `f"{start} --> {end}\n"` and `f"{text}\n\n"`. */
  function BlockText(b: SrtBlock): string {
    NatToString(b.number) + "\n" + TimeLine(b.start, b.end) + "\n" + b.text + "\n\n"
  }

  /** The SRT file: the blocks' texts one after the other. */
  function SrtText(blocks: seq<SrtBlock>): string {
    if blocks == [] then "" else BlockText(blocks[0]) + SrtText(blocks[1..])
  }

  /** Appending a block appends its text. */
  lemma {:induction false} SrtTextAppend(blocks: seq<SrtBlock>, b: SrtBlock)
    ensures SrtText(blocks + [b]) == SrtText(blocks) + BlockText(b)
  {
    if blocks == [] {
      assert [] + [b] == [b];
      assert SrtText([b]) == BlockText(b) + SrtText([]);
    } else {
      assert (blocks + [b])[1..] == blocks[1..] + [b];
      SrtTextAppend(blocks[1..], b);
    }
  }

  /** The three appends of one block add up to its text. */
  lemma AppendBlockPieces(srt: string, id: string, start: string, end: string, text: string)
    ensures srt + id + "\n" + start + " --> " + end + "\n" + text + "\n\n"
            == srt + (id + "\n" + TimeLine(start, end) + "\n" + text + "\n\n")
  {
  }

  function BlockOf(number: nat, c: Cue): SrtBlock {
    SrtBlock(number, FormatSrtTime(c.startMs), FormatSrtTime(c.endMs), c.text)
  }

  /** The colab numbering: each kept segment's block is numbered with that
      segment's 1-based position among all segments. */
  function ColabBlocks(cues: seq<Cue>): seq<SrtBlock> {
    if cues == [] then []
    else
      var n := |cues| - 1;
      ColabBlocks(cues[..n]) + (if Kept(cues[n]) then [BlockOf(n + 1, cues[n])] else [])
  }

  /** One more segment adds at most its own block, numbered by its position. */
  lemma ColabBlocksStep(cues: seq<Cue>, i: nat)
    requires i < |cues|
    ensures ColabBlocks(cues[..i + 1]) == ColabBlocks(cues[..i])
      + (if Kept(cues[i]) then [BlockOf(i + 1, cues[i])] else [])
  {
    assert cues[..i + 1][..i] == cues[..i];
  }

  /** Block `k` belongs to the `k`-th kept segment and carries its position plus one,
      so a dropped segment leaves a gap in the numbering. */
  lemma {:induction false} ColabBlocksSpec(cues: seq<Cue>)
    ensures |ColabBlocks(cues)| == |KeptIndices(cues)|
    ensures forall k :: 0 <= k < |ColabBlocks(cues)| ==>
      KeptIndices(cues)[k] < |cues| && ColabBlocks(cues)[k] == BlockOf(KeptIndices(cues)[k] + 1, cues[KeptIndices(cues)[k]])
  {
    if cues != [] {
      var n := |cues| - 1;
      var init := cues[..n];
      ColabBlocksSpec(init);
      var prev, kp := ColabBlocks(init), KeptIndices(init);
      var blocks, kept := ColabBlocks(cues), KeptIndices(cues);
      assert blocks == prev + (if Kept(cues[n]) then [BlockOf(n + 1, cues[n])] else []);
      assert kept == kp + (if Kept(cues[n]) then [n] else []);
      forall k | 0 <= k < |blocks|
        ensures kept[k] < |cues| && blocks[k] == BlockOf(kept[k] + 1, cues[kept[k]])
      {
        if k < |prev| {
          assert blocks[k] == prev[k] && kept[k] == kp[k];
          assert init[kp[k]] == cues[kp[k]];
        }
      }
    }
  }

  /** The local numbering: the kept segments' blocks are numbered 1, 2, 3, ... */
  function LocalBlocks(cues: seq<Cue>): seq<SrtBlock> {
    if cues == [] then []
    else
      var n := |cues| - 1;
      var prev := LocalBlocks(cues[..n]);
      prev + (if Kept(cues[n]) then [BlockOf(|prev| + 1, cues[n])] else [])
  }

  /** Block `k` belongs to the `k`-th kept segment and is numbered `k + 1`, with no
      gaps. */
  lemma LocalBlocksSpec(cues: seq<Cue>)
    ensures |LocalBlocks(cues)| == |KeptIndices(cues)|
    ensures forall k :: 0 <= k < |LocalBlocks(cues)| ==>
      KeptIndices(cues)[k] < |cues| && LocalBlocks(cues)[k] == BlockOf(k + 1, cues[KeptIndices(cues)[k]])
  {
    LocalBlocksLength(cues);
    forall k | 0 <= k < |LocalBlocks(cues)|
      ensures KeptIndices(cues)[k] < |cues|
      ensures LocalBlocks(cues)[k] == BlockOf(k + 1, cues[KeptIndices(cues)[k]])
    {
      LocalBlockAt(cues, k);
    }
  }

  lemma {:induction false} LocalBlocksLength(cues: seq<Cue>)
    ensures |LocalBlocks(cues)| == |KeptIndices(cues)|
  {
    if cues != [] {
      LocalBlocksLength(cues[..|cues| - 1]);
    }
  }

  lemma {:induction false} LocalBlockAt(cues: seq<Cue>, k: nat)
    requires k < |LocalBlocks(cues)|
    ensures |LocalBlocks(cues)| == |KeptIndices(cues)| && KeptIndices(cues)[k] < |cues|
    ensures LocalBlocks(cues)[k] == BlockOf(k + 1, cues[KeptIndices(cues)[k]])
  {
    LocalBlocksLength(cues);
    var n := |cues| - 1;
    var init := cues[..n];
    var prev, kp := LocalBlocks(init), KeptIndices(init);
    LocalBlocksLength(init);
    assert LocalBlocks(cues) == prev + (if Kept(cues[n]) then [BlockOf(|prev| + 1, cues[n])] else []);
    assert KeptIndices(cues) == kp + (if Kept(cues[n]) then [n] else []);
    if k < |prev| {
      LocalBlockAt(init, k);
      assert init[kp[k]] == cues[kp[k]];
    }
  }

  /** One more segment adds at most its own block, numbered after the blocks so
      far. */
  lemma LocalBlocksStep(cues: seq<Cue>, i: nat)
    requires i < |cues|
    ensures LocalBlocks(cues[..i + 1]) == LocalBlocks(cues[..i])
      + (if Kept(cues[i]) then [BlockOf(|LocalBlocks(cues[..i])| + 1, cues[i])] else [])
  {
    assert cues[..i + 1][..i] == cues[..i];
  }

  /** The two numberings agree on everything but the number, and coincide when no
      segment is dropped. */
  lemma NumberingsAgree(cues: seq<Cue>)
    ensures |ColabBlocks(cues)| == |LocalBlocks(cues)|
    ensures forall k :: 0 <= k < |LocalBlocks(cues)| ==> LocalBlocks(cues)[k] == ColabBlocks(cues)[k].(number := k + 1)
    ensures (forall i :: 0 <= i < |cues| ==> Kept(cues[i])) ==> ColabBlocks(cues) == LocalBlocks(cues)
  {
    ColabBlocksSpec(cues);
    LocalBlocksSpec(cues);
    var colab, local, kept := ColabBlocks(cues), LocalBlocks(cues), KeptIndices(cues);
    forall k | 0 <= k < |local| ensures local[k] == colab[k].(number := k + 1) {
      assert local[k] == BlockOf(k + 1, cues[kept[k]]);
      assert colab[k] == BlockOf(kept[k] + 1, cues[kept[k]]);
    }
    if forall i :: 0 <= i < |cues| ==> Kept(cues[i]) {
      AllKeptIndices(cues);
      forall k | 0 <= k < |local| ensures local[k] == colab[k] {
        assert kept[k] == k;
      }
    }
  }

  /** When every segment is kept, the kept positions are all positions. */
  lemma {:induction false} AllKeptIndices(cues: seq<Cue>)
    requires forall i :: 0 <= i < |cues| ==> Kept(cues[i])
    ensures |KeptIndices(cues)| == |cues|
    ensures forall k :: 0 <= k < |cues| ==> KeptIndices(cues)[k] == k
  {
    if cues != [] {
      var n := |cues| - 1;
      assert forall i :: 0 <= i < n ==> cues[..n][i] == cues[i];
      AllKeptIndices(cues[..n]);
    }
  }

  /** The colab loop that builds `subtitle_transcription_local` and the data rows of
      the timeline sheet (each row `[i, start, end, text]`). */
  method ColabSubtitles(segs: seq<Segment>) returns (srt: string, rows: seq<SrtBlock>)
    ensures rows == ColabBlocks(Cues(segs))
    ensures srt == SrtText(rows)
  {
    var cues := Cues(segs);
    srt := "";
    rows := [];
    for i := 0 to |segs|
      invariant rows == ColabBlocks(cues[..i])
      invariant srt == SrtText(rows)
    {
      var startTime := FormatSrtTime(segs[i].startMs);
      var endTime := FormatSrtTime(segs[i].endMs);
      var cleaned := CleanText(segs[i].text);
      assert cues[i] == Cue(segs[i].startMs, segs[i].endMs, cleaned);
      ColabBlocksStep(cues, i);
      if cleaned != "" {
        var b := SrtBlock(i + 1, startTime, endTime, cleaned);
        SrtTextAppend(rows, b);
        rows := rows + [b];
        AppendBlockPieces(srt, NatToString(i + 1), startTime, endTime, cleaned);
        srt := srt + NatToString(i + 1) + "\n";
        srt := srt + startTime + " --> " + endTime + "\n";
        srt := srt + cleaned + "\n\n";
      }
    }
    assert cues[..|segs|] == cues;
  }

  /** The local loop that builds `srt_content` with the counter
      `srt_sequence_number`. */
  method LocalSrt(segs: seq<Segment>) returns (srt: string)
    ensures srt == SrtText(LocalBlocks(Cues(segs)))
  {
    var cues := Cues(segs);
    srt := "";
    var sequenceNumber: nat := 1;
    ghost var blocks: seq<SrtBlock> := [];
    for i := 0 to |segs|
      invariant blocks == LocalBlocks(cues[..i])
      invariant srt == SrtText(blocks)
      invariant sequenceNumber == |blocks| + 1
    {
      var startTime := FormatSrtTime(segs[i].startMs);
      var endTime := FormatSrtTime(segs[i].endMs);
      var cleaned := CleanText(segs[i].text);
      assert cues[i] == Cue(segs[i].startMs, segs[i].endMs, cleaned);
      LocalBlocksStep(cues, i);
      if cleaned != "" {
        var b := SrtBlock(sequenceNumber, startTime, endTime, cleaned);
        SrtTextAppend(blocks, b);
        blocks := blocks + [b];
        AppendBlockPieces(srt, NatToString(sequenceNumber), startTime, endTime, cleaned);
        srt := srt + NatToString(sequenceNumber) + "\n";
        srt := srt + startTime + " --> " + endTime + "\n";
        srt := srt + cleaned + "\n\n";
        sequenceNumber := sequenceNumber + 1;
      }
          }
    assert cues[..|segs|] == cues;
  }

  // ---------------------------------------------------------------------------
  // Reading SRT text back
  // ---------------------------------------------------------------------------

  /** One block as the reader returns it: number, start, end and one-line text. */
  datatype SrtEntry = SrtEntry(id: string, start: string, end: string, text: string)

  /** One block as the lines it was read from: its number line, the two times of its
      time line and its text lines. */
  datatype RawBlock = RawBlock(id: string, start: string, end: string, textLines: seq<string>)

  predicate IsIdLine(l: string) {
    l != [] && AllDigits(l)
  }

  /** `DD:DD:DD,DDD --> DD:DD:DD,DDD`. */
  predicate IsTimeLine(l: string) {
    |l| == 29 && IsTimeText(l[..12]) && l[12..17] == " --> " && IsTimeText(l[17..])
  }

  /** The lines open a block: a number line, a time line and a non-empty text line. */
  predicate StartsBlock(lines: seq<string>) {
    |lines| >= 3 && IsIdLine(lines[0]) && IsTimeLine(lines[1]) && lines[2] != ""
  }

  /** How many non-empty lines `lines` starts with. */
  function TextRun(lines: seq<string>): (n: nat)
    ensures n <= |lines|
    ensures forall k :: 0 <= k < n ==> lines[k] != ""
    ensures n == |lines| || lines[n] == ""
  {
    if lines == [] || lines[0] == "" then 0 else 1 + TextRun(lines[1..])
  }

  /** Block-by-block reading: a block runs from its number line through its last
      non-empty text line; a line that does not open a block is skipped. */
  function RawBlocks(lines: seq<string>): seq<RawBlock>
    decreases |lines|
  {
    if |lines| < 3 then []
    else if StartsBlock(lines) then
      var n := TextRun(lines[2..]);
      [RawBlock(lines[0], lines[1][..12], lines[1][17..], lines[2..2 + n])] + RawBlocks(lines[2 + n..])
    else RawBlocks(lines[1..])
  }

  /** A block's text lines, stripped and joined into one line with spaces. */
  function EntryText(textLines: seq<string>): string {
    Replace(Strip(Join(textLines, "\n")), "\n", " ")
  }

  function EntryOfRaw(r: RawBlock): SrtEntry {
    SrtEntry(r.id, r.start, r.end, EntryText(r.textLines))
  }

  function Entries(raws: seq<RawBlock>): seq<SrtEntry> {
    seq(|raws|, k requires 0 <= k < |raws| => EntryOfRaw(raws[k]))
  }

  /** `parse_srt_content`. */
  function ParseSrt(content: string): seq<SrtEntry> {
    Entries(RawBlocks(Split(content, '\n')))
  }

  /** The `finditer` loop of `parse_srt_content` that appends to `segments`. */
  method ParseSrtContent(content: string) returns (segments: seq<SrtEntry>)
    ensures segments == ParseSrt(content)
  {
    var lines := Split(content, '\n');
    segments := [];
    ghost var raws: seq<RawBlock> := [];
    var i := 0;
    while i + 2 < |lines|
      invariant 0 <= i <= |lines|
      invariant RawBlocks(lines) == raws + RawBlocks(lines[i..])
      invariant segments == Entries(raws)
      decreases |lines| - i
    {
      if IsIdLine(lines[i]) && IsTimeLine(lines[i + 1]) && lines[i + 2] != "" {
        var j := i + 2;
        while j < |lines| && lines[j] != ""
          invariant i + 2 <= j <= |lines|
          invariant forall k :: i + 2 <= k < j ==> lines[k] != ""
        {
          j := j + 1;
        }
        ghost var r := RawBlock(lines[i], lines[i + 1][..12], lines[i + 1][17..], lines[i + 2..j]);
        var entry := SrtEntry(lines[i], lines[i + 1][..12], lines[i + 1][17..], EntryText(lines[i + 2..j]));
        ReadStep(lines, i, j, raws, r);
        EntriesAppend(raws, r);
        segments := segments + [entry];
        raws := raws + [r];
        i := j;
      } else {
        RawBlocksSkip(lines, i);
        i := i + 1;
      }
    }
    assert RawBlocks(lines[i..]) == [];
  }

  /** A block read at line `i` whose text runs up to the empty line `j` (or the end). */
  lemma RawBlocksTake(lines: seq<string>, i: nat, j: nat)
    requires i + 2 < |lines| && i + 2 <= j <= |lines|
    requires IsIdLine(lines[i]) && IsTimeLine(lines[i + 1]) && lines[i + 2] != ""
    requires forall k :: i + 2 <= k < j ==> lines[k] != ""
    requires j == |lines| || lines[j] == ""
    ensures RawBlocks(lines[i..])
      == [RawBlock(lines[i], lines[i + 1][..12], lines[i + 1][17..], lines[i + 2..j])] + RawBlocks(lines[j..])
  {
    var rest := lines[i..];
    var n := j - i - 2;
    RunLength(rest[2..], n);
    assert rest[2..2 + n] == lines[i + 2..j];
    assert rest[2 + n..] == lines[j..];
    assert rest[0] == lines[i] && rest[1] == lines[i + 1] && rest[2] == lines[i + 2];
    assert StartsBlock(rest);
    assert RawBlocks(rest) == [RawBlock(rest[0], rest[1][..12], rest[1][17..], rest[2..2 + n])] + RawBlocks(rest[2 + n..]);
  }

  /** Reading the block at line `i` moves the reader on to line `j`. */
  lemma ReadStep(lines: seq<string>, i: nat, j: nat, raws: seq<RawBlock>, r: RawBlock)
    requires i + 2 < |lines| && i + 2 <= j <= |lines|
    requires IsIdLine(lines[i]) && IsTimeLine(lines[i + 1]) && lines[i + 2] != ""
    requires forall k :: i + 2 <= k < j ==> lines[k] != ""
    requires j == |lines| || lines[j] == ""
    requires r == RawBlock(lines[i], lines[i + 1][..12], lines[i + 1][17..], lines[i + 2..j])
    requires RawBlocks(lines) == raws + RawBlocks(lines[i..])
    ensures RawBlocks(lines) == (raws + [r]) + RawBlocks(lines[j..])
  {
    RawBlocksTake(lines, i, j);
    assert raws + ([r] + RawBlocks(lines[j..])) == (raws + [r]) + RawBlocks(lines[j..]);
  }

  /** A line `i` that does not start a block is passed over. */
  lemma RawBlocksSkip(lines: seq<string>, i: nat)
    requires i + 2 < |lines|
    requires !(IsIdLine(lines[i]) && IsTimeLine(lines[i + 1]) && lines[i + 2] != "")
    ensures RawBlocks(lines[i..]) == RawBlocks(lines[i + 1..])
  {
    assert lines[i..][1..] == lines[i + 1..];
  }

  /** The run of non-empty lines ends at the first empty line. */
  lemma RunLength(lines: seq<string>, m: nat)
    requires m <= |lines|
    requires forall k :: 0 <= k < m ==> lines[k] != ""
    requires m == |lines| || lines[m] == ""
    ensures TextRun(lines) == m
  {
  }

  lemma EntriesAppend(raws: seq<RawBlock>, r: RawBlock)
    ensures Entries(raws + [r]) == Entries(raws) + [EntryOfRaw(r)]
  {
  }

  // ---------------------------------------------------------------------------
  // Writing then reading
  // ---------------------------------------------------------------------------

  /** A block the reader gives back whole: fixed-width times and a one-line, stripped,
      non-empty text. */
  predicate Readable(b: SrtBlock) {
    IsTimeText(b.start) && IsTimeText(b.end) && b.text != "" && IsStripped(b.text) && '\n' !in b.text
  }

  function EntryOf(b: SrtBlock): SrtEntry {
    SrtEntry(NatToString(b.number), b.start, b.end, b.text)
  }

  /** The four lines a block's text consists of. */
  function BlockLines(b: SrtBlock): seq<string> {
    [NatToString(b.number), TimeLine(b.start, b.end), b.text, ""]
  }

  function AllBlockLines(blocks: seq<SrtBlock>): seq<string> {
    if blocks == [] then [] else BlockLines(blocks[0]) + AllBlockLines(blocks[1..])
  }

  lemma DigitsNoNewline(s: string)
    requires AllDigits(s)
    ensures '\n' !in s
  {
  }

  lemma TimeLineNoNewline(start: string, end: string)
    requires IsTimeText(start) && IsTimeText(end)
    ensures '\n' !in TimeLine(start, end)
  {
    TimeTextNoNewline(start);
    TimeTextNoNewline(end);
    assert '\n' !in " --> ";
  }

  /** The lines of a block's text followed by more text. */
  lemma BlockSplit(b: SrtBlock, rest: string)
    requires Readable(b)
    ensures Split(BlockText(b) + rest, '\n') == BlockLines(b) + Split(rest, '\n')
  {
    var id := NatToString(b.number);
    var tl := TimeLine(b.start, b.end);
    DigitsNoNewline(id);
    TimeLineNoNewline(b.start, b.end);
    var t3 := [] + ['\n'] + rest;
    var t2 := b.text + ['\n'] + t3;
    var t1 := tl + ['\n'] + t2;
    assert BlockText(b) + rest == id + ['\n'] + t1;
    SplitPrefix([], rest, '\n');
    SplitPrefix(b.text, t3, '\n');
    SplitPrefix(tl, t2, '\n');
    SplitPrefix(id, t1, '\n');
  }

  /** The lines of a whole SRT text: each block's four lines, then one empty line
      after the final newline. */
  lemma {:induction false} SrtTextLines(blocks: seq<SrtBlock>)
    requires forall k :: 0 <= k < |blocks| ==> Readable(blocks[k])
    ensures Split(SrtText(blocks), '\n') == AllBlockLines(blocks) + [""]
  {
    if blocks != [] {
      SrtTextLines(blocks[1..]);
      BlockSplit(blocks[0], SrtText(blocks[1..]));
    }
  }

  /** A blank line never opens a block. */
  lemma BlankLineSkipped(rest: seq<string>)
    ensures RawBlocks([""] + rest) == RawBlocks(rest)
  {
    assert ([""] + rest)[1..] == rest;
  }

  /** The time line of a block opens it, and its times read back. */
  lemma TimeLineParts(start: string, end: string)
    requires IsTimeText(start) && IsTimeText(end)
    ensures IsTimeLine(TimeLine(start, end))
    ensures TimeLine(start, end)[..12] == start && TimeLine(start, end)[17..] == end
  {
    var tl := TimeLine(start, end);
    assert tl[..12] == start && tl[12..17] == " --> " && tl[17..] == end;
  }

  /** A block's four lines are read as one raw block of one text line. */
  lemma ReadBlock(b: SrtBlock, rest: seq<string>)
    requires Readable(b)
    ensures RawBlocks(BlockLines(b) + rest)
            == [RawBlock(NatToString(b.number), b.start, b.end, [b.text])] + RawBlocks(rest)
  {
    var lines := BlockLines(b) + rest;
    TimeLineParts(b.start, b.end);
    assert StartsBlock(lines);
    RunLength(lines[2..], 1);
    assert lines[2..3] == [b.text];
    assert lines[3..] == [""] + rest;
    BlankLineSkipped(rest);
  }

  /** A one-line, stripped text is read back unchanged. */
  lemma EntryTextOneLine(t: string)
    requires IsStripped(t) && '\n' !in t
    ensures EntryText([t]) == t
  {
    StripStripped(t);
    assert !Contains(t, "\n") by {
      forall i | 0 <= i <= |t| ensures !OccursAt(t, "\n", i) {
        if i + 1 <= |t| {
          assert t[i..i + 1][0] == t[i];
        }
      }
    }
    ReplaceAbsent(t, "\n", " ");
  }

  lemma {:induction false} ReadBlocks(blocks: seq<SrtBlock>)
    requires forall k :: 0 <= k < |blocks| ==> Readable(blocks[k])
    ensures RawBlocks(AllBlockLines(blocks) + [""])
            == seq(|blocks|, k requires 0 <= k < |blocks| =>
                   RawBlock(NatToString(blocks[k].number), blocks[k].start, blocks[k].end, [blocks[k].text]))
  {
    if blocks != [] {
      ReadBlocks(blocks[1..]);
      ReadBlock(blocks[0], AllBlockLines(blocks[1..]) + [""]);
      assert AllBlockLines(blocks) + [""] == BlockLines(blocks[0]) + (AllBlockLines(blocks[1..]) + [""]);
    }
  }

  /** Reading written SRT text gives back every block's number, times and text, in
      order. */
  lemma WriteThenRead(blocks: seq<SrtBlock>)
    requires forall k :: 0 <= k < |blocks| ==> Readable(blocks[k])
    ensures |ParseSrt(SrtText(blocks))| == |blocks|
    ensures forall k :: 0 <= k < |blocks| ==> ParseSrt(SrtText(blocks))[k] == EntryOf(blocks[k])
  {
    SrtTextLines(blocks);
    ReadBlocks(blocks);
    forall k | 0 <= k < |blocks| ensures EntryText([blocks[k].text]) == blocks[k].text {
      EntryTextOneLine(blocks[k].text);
    }
  }

  /** A segment below 100 hours whose cleaned text is one line writes a block the
      reader gives back whole. */
  predicate ReadableCue(c: Cue) {
    Hours(c.startMs) < 100 && Hours(c.endMs) < 100 && IsStripped(c.text) && '\n' !in c.text
  }

  /** The local transcriber's SRT output reads back as its kept segments, numbered
      1, 2, 3, ..., with their times and cleaned texts. */
  lemma LocalSrtReadsBack(cues: seq<Cue>)
    requires forall i :: 0 <= i < |cues| ==> ReadableCue(cues[i])
    ensures var r := ParseSrt(SrtText(LocalBlocks(cues))); var kept := KeptIndices(cues);
      |r| == |kept|
      && forall k :: 0 <= k < |kept| ==>
        kept[k] < |cues| && r[k] == SrtEntry(NatToString(k + 1), FormatSrtTime(cues[kept[k]].startMs),
                                             FormatSrtTime(cues[kept[k]].endMs), cues[kept[k]].text)
  {
    var blocks := LocalBlocks(cues);
    LocalBlocksSpec(cues);
    KeptIndicesSound(cues);
    forall k | 0 <= k < |blocks| ensures Readable(blocks[k]) {
      var c := cues[KeptIndices(cues)[k]];
      assert blocks[k] == BlockOf(k + 1, c);
      FormatSrtTimeWidth(c.startMs);
      FormatSrtTimeWidth(c.endMs);
    }
    WriteThenRead(blocks);
  }
}
