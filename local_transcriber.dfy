/** The local transcriber: every audio file not yet in the processed-files ledger is
    transcribed; its plain text and its SRT text are written to the file's output
    directory, and the file enters the ledger, which is saved at once, only after
    the SRT text has been written.

    Per file, the outside world is given: the recognised segments, or nothing when
    transcription raises; and which of the directory, the two writes and the ledger
    save fail. */
module LocalTranscriber {
  import opened Wrappers
  import opened TextUtil
  import opened Ledger
  import opened Subtitles

  /** One audio file and what happens to it outside the model. */
  datatype AudioFile = AudioFile(name: string, segments: Option<seq<Segment>>, dirFails: bool,
                                 normalFails: bool, srtFails: bool, saveFault: Fault, removeFails: bool)

  /** What was written for a file: `{base}_normal.txt` when its write succeeded,
      and `{base}.srt` when its write succeeded. */
  datatype Written = Written(name: string, normal: Option<string>, srt: Option<string>)

  /** The loop's state: the ledger in memory and the outputs written. */
  datatype LocalState = LocalState(processed: set<string>, written: seq<Written>)

  /** The file gets as far as writing its SRT text. */
  predicate Reaches(st: LocalState, f: AudioFile) {
    f.name !in st.processed && f.segments.Some? && !f.dirFails
  }

  /** The file is marked processed: its SRT text was written. */
  predicate Marked(st: LocalState, f: AudioFile) {
    Reaches(st, f) && !f.srtFails
  }

  /** One iteration of the file loop. */
  function LocalStep(st: LocalState, f: AudioFile): LocalState {
    if !Reaches(st, f) then st
    else
      var cues := Cues(f.segments.value);
      var out := Written(f.name, if f.normalFails then None else Some(NormalText(CleanLines(cues))),
                         if f.srtFails then None else Some(SrtText(LocalBlocks(cues))));
      if f.srtFails then st.(written := st.written + [out])
      else LocalState(st.processed + {f.name}, st.written + [out])
  }

  function AfterFiles(st0: LocalState, files: seq<AudioFile>, k: nat): LocalState
    requires k <= |files|
  {
    if k == 0 then st0 else LocalStep(AfterFiles(st0, files, k - 1), files[k - 1])
  }

  /** Marking rule for one file: the ledger in memory only grows, and only by this
      file, exactly when it was not yet processed, was transcribed and its SRT text
      was written; a failed plain-text write does not matter. */
  lemma MarkRule(st: LocalState, f: AudioFile)
    ensures forall x :: x in LocalStep(st, f).processed <==> x in st.processed || (x == f.name && Marked(st, f))
    ensures f.normalFails ==> LocalStep(st, f).processed == LocalStep(st, f.(normalFails := false)).processed
  {
  }

  /** A file already in the ledger is skipped before it is transcribed: nothing is
      written and nothing changes. */
  lemma ProcessedFileSkipped(st: LocalState, f: AudioFile)
    requires f.name in st.processed
    ensures LocalStep(st, f) == st
  {
  }

  /** A transcription error, a failed output directory or a failed SRT write leaves
      the file out of the ledger. */
  lemma UnmarkedFailures(st: LocalState, f: AudioFile)
    requires f.name !in st.processed
    requires f.segments.None? || f.dirFails || f.srtFails
    ensures f.name !in LocalStep(st, f).processed
  {
  }

  /** A name is in the ledger after `k` files only when it was loaded or one of those
      files was marked under it. */
  lemma {:induction false} MarkedBefore(st0: LocalState, files: seq<AudioFile>, k: nat, x: string)
    requires k <= |files| && x in AfterFiles(st0, files, k).processed
    ensures x in st0.processed || exists j :: 0 <= j < k && x == files[j].name && Marked(AfterFiles(st0, files, j), files[j])
  {
    if k > 0 {
      var prev := AfterFiles(st0, files, k - 1);
      MarkRule(prev, files[k - 1]);
      if x in prev.processed {
        MarkedBefore(st0, files, k - 1, x);
        if x !in st0.processed {
          var j :| 0 <= j < k - 1 && x == files[j].name && Marked(AfterFiles(st0, files, j), files[j]);
          assert 0 <= j < k;
        }
      } else {
        assert x == files[k - 1].name && Marked(AfterFiles(st0, files, k - 1), files[k - 1]);
      }
    }
  }

  /** The ledger in memory never loses a name during a run. */
  lemma {:induction false} LedgerGrows(st0: LocalState, files: seq<AudioFile>, j: nat, k: nat)
    requires j <= k <= |files|
    ensures AfterFiles(st0, files, j).processed <= AfterFiles(st0, files, k).processed
    decreases k - j
  {
    if j < k {
      LedgerGrows(st0, files, j, k - 1);
      MarkRule(AfterFiles(st0, files, k - 1), files[k - 1]);
    }
  }

  /** A marked file's name stays in the ledger for the rest of the run. */
  lemma MarkStays(st0: LocalState, files: seq<AudioFile>, j: nat, k: nat)
    requires j < k <= |files| && Marked(AfterFiles(st0, files, j), files[j])
    ensures files[j].name in AfterFiles(st0, files, k).processed
  {
    MarkedNext(st0, files, j);
    NameStays(st0, files, files[j].name, j + 1, k);
  }

  lemma NameStays(st0: LocalState, files: seq<AudioFile>, x: string, j: nat, k: nat)
    requires j <= k <= |files| && x in AfterFiles(st0, files, j).processed
    ensures x in AfterFiles(st0, files, k).processed
  {
    LedgerGrows(st0, files, j, k);
  }

  lemma MarkedNext(st0: LocalState, files: seq<AudioFile>, j: nat)
    requires j < |files| && Marked(AfterFiles(st0, files, j), files[j])
    ensures files[j].name in AfterFiles(st0, files, j + 1).processed
  {
  }

  /** Over the run: a name is in the final ledger exactly when it was loaded or some
      file of that name was marked. */
  lemma RunMarks(st0: LocalState, files: seq<AudioFile>, k: nat)
    requires k <= |files|
    ensures forall x :: x in AfterFiles(st0, files, k).processed <==>
      x in st0.processed || exists j :: 0 <= j < k && x == files[j].name && Marked(AfterFiles(st0, files, j), files[j])
  {
    forall x | x in AfterFiles(st0, files, k).processed
      ensures x in st0.processed ||
        exists j :: 0 <= j < k && x == files[j].name && Marked(AfterFiles(st0, files, j), files[j])
    {
      MarkedBefore(st0, files, k, x);
    }
    forall x | x in st0.processed ||
        exists j :: 0 <= j < k && x == files[j].name && Marked(AfterFiles(st0, files, j), files[j])
      ensures x in AfterFiles(st0, files, k).processed
    {
      if x in st0.processed {
        LedgerGrows(st0, files, 0, k);
      } else {
        var j :| 0 <= j < k && x == files[j].name && Marked(AfterFiles(st0, files, j), files[j]);
        MarkStays(st0, files, j, k);
      }
    }
  }

  /** A file marked once is never transcribed again in the same run: a later file of
      the same name is skipped. */
  lemma TranscribedOnce(st0: LocalState, files: seq<AudioFile>, j: nat, k: nat)
    requires j < k < |files|
    requires files[j].name == files[k].name && Marked(AfterFiles(st0, files, j), files[j])
    ensures !Reaches(AfterFiles(st0, files, k), files[k])
  {
    MarkStays(st0, files, j, k);
  }

  /** One iteration of `for audio_file_name in audio_files_to_process`, with the
      ledger file: it never lists a name the ledger in memory lacks, it is
      rewritten only when the file is marked, and after a successful save it lists
      exactly the ledger. */
  method ProcessFile(st: LocalState, disk: Disk, f: AudioFile) returns (after: LocalState, afterDisk: Disk)
    requires LoadProcessedFiles(disk.state) <= st.processed
    ensures after == LocalStep(st, f)
    ensures LoadProcessedFiles(afterDisk.state) <= after.processed
    ensures !Marked(st, f) ==> afterDisk == disk
    ensures Marked(st, f) && f.saveFault == NoFault ==>
      LoadProcessedFiles(afterDisk.state) == after.processed && afterDisk.temp == Absent
  {
    if f.name in st.processed {
      return st, disk;
    }
    if f.segments.None? {
      return st, disk;
    }
    var segs := f.segments.value;
    var lines := TranscriptionLines(segs);
    var normalText := NormalText(lines);
    var srt := LocalSrt(segs);
    if f.dirFails {
      return st, disk;
    }
    var normal := if f.normalFails then None else Some(normalText);
    if f.srtFails {
      return st.(written := st.written + [Written(f.name, normal, None)]), disk;
    }
    var processed := st.processed + {f.name};
    var order;
    afterDisk, order := SaveProcessedFiles(disk, processed, f.saveFault, f.removeFails);
    if f.saveFault == NoFault {
      SaveThenLoad(disk, processed, order);
    } else {
      FailedSaveKeepsLedger(disk, order, f.saveFault);
      assert afterDisk.state == AfterSave(disk, order, f.saveFault).state;
    }
    after := LocalState(processed, st.written + [Written(f.name, normal, Some(srt))]);
  }

  /** `main` from the file loop on: the ledger loaded from the state file, then each
      file in turn. */
  method ProcessAudioFiles(disk: Disk, files: seq<AudioFile>) returns (st: LocalState, afterDisk: Disk)
    ensures st == AfterFiles(LocalState(LoadProcessedFiles(disk.state), []), files, |files|)
    ensures LoadProcessedFiles(afterDisk.state) <= st.processed
  {
    st := LocalState(LoadProcessedFiles(disk.state), []);
    afterDisk := disk;
    for i := 0 to |files|
      invariant st == AfterFiles(LocalState(LoadProcessedFiles(disk.state), []), files, i)
      invariant LoadProcessedFiles(afterDisk.state) <= st.processed
    {
      st, afterDisk := ProcessFile(st, afterDisk, files[i]);
    }
  }
}
