/** `process_transcriptions_and_apply_gemini`: for each transcript item, in the
    order given, read its `_normal.txt`, upload its lines to column A of the item's
    sheet and, unless the item is already in the ledger or has no lines, correct
    them and write the result to column B. An item enters the ledger, which is then
    saved at once, only after a non-empty correction has been written. A pause of
    15 s follows every completed item while fewer items have been counted than
    there are items.

    Per item, the outside world is given: whether the text file exists, can be read
    and what it holds, whether the sheet steps fail (they raise, and the item is
    abandoned), and where saving the ledger fails. */
module SheetsDriver {
  import opened Wrappers
  import opened TextUtil
  import opened Retry
  import opened Ledger
  import opened SheetsCorrection

  const InterSpreadsheetDelay: nat := 15

  /** What reading `{item}_normal.txt` gives: no file (the item is skipped), a file
      that cannot be read or decoded as UTF-8 (the error is raised before the item's
      `try` and ends the run), or its text. */
  datatype TextFile = Missing | ReadFails | Text(content: string)

  /** One item directory and what happens to it outside the correction. */
  datatype Item = Item(name: string, normal: TextFile, setupFails: bool, columnBFails: bool, saveFault: Fault)

  /** The correction the driver calls: `correct(next, lines)` is what
      `get_gemini_correction` does with `lines` when the service outcomes from `next`
      on are still unused. The item loop is stated for any such function;
      `ProcessTranscriptions` ties it to the Gemini correction with the run's fixed
      service and prompts. */
  type Corrector = (nat, seq<string>) -> Correction

  /** The driver's state: the ledger in memory, `processed_count`, the next unused
      service outcome, the events, and whether an unreadable text file has ended
      the run. */
  datatype Progress = Progress(ledger: set<string>, count: nat, next: nat, log: seq<Event>, raised: bool)

  /** The item's transcript lines, when its text file was read. */
  function WhisperLines(item: Item): seq<string>
    requires item.normal.Text?
  {
    SplitLines(item.normal.content)
  }

  /** The item reaches the correction: the run is still going, its file was read,
      its sheet steps succeed, it is not in the ledger and it has lines. */
  predicate NeedsCorrection(p: Progress, item: Item) {
    !p.raised && item.normal.Text? && !item.setupFails && item.name !in p.ledger && WhisperLines(item) != []
  }

  /** A completed item: counted, and followed by the pause while fewer items have
      been counted than there are items. */
  function Complete(p: Progress, total: nat): Progress {
    p.(count := p.count + 1, log := p.log + if p.count + 1 < total then [Sleep(InterSpreadsheetDelay)] else [])
  }

  /** One iteration of the item loop. After an unreadable text file nothing more
      happens. A missing text file or a failed sheet step leaves the item
      uncounted; a failed column-B write after a correction abandons it too, with
      the service calls already made. */
  function ItemStep(correct: Corrector, total: nat, p: Progress, item: Item): Progress
  {
    if p.raised || item.normal.Missing? then p
    else if item.normal.ReadFails? then p.(raised := true)
    else if item.setupFails then p
    else if !NeedsCorrection(p, item) then Complete(p, total)
    else
      var c := correct(p.next, WhisperLines(item));
      var p1 := p.(next := c.next, log := p.log + c.log);
      if c.result.Some? && c.result.value != "" then
        if item.columnBFails then p1 else Complete(p1.(ledger := p1.ledger + {item.name}), total)
      else Complete(p1, total)
  }

  /** The first `k` items of the loop. */
  function AfterItems(correct: Corrector, p0: Progress, items: seq<Item>, k: nat): Progress
    requires k <= |items|
  {
    if k == 0 then p0 else ItemStep(correct, |items|, AfterItems(correct, p0, items, k - 1), items[k - 1])
  }

  /** How the driver ends: no sheets client, a ledger read error that escapes, a
      text-file read error that escapes part-way, or the loop run to the end. */
  datatype RunEnd = NoClient | LoadFailed | ReadFailed(progress: Progress) | Finished(progress: Progress)

  /** Where the item loop starts: the loaded ledger, nothing counted, nothing logged. */
  function Start(ledger: set<string>, start: nat): Progress {
    Progress(ledger, 0, start, [], false)
  }

  function Drive(clientReady: bool, correct: Corrector, start: nat, state: Store, items: seq<Item>): RunEnd
  {
    if !clientReady then NoClient
    else match LoadGeminiState(state)
      case None => LoadFailed
      case Some(ledger) =>
        var p := AfterItems(correct, Start(ledger, start), items, |items|);
        if p.raised then ReadFailed(p) else Finished(p)
  }

  /** The item enters the ledger exactly when it needed a correction, the correction
      gave a non-empty text and writing it to column B succeeded. */
  predicate Ledgered(correct: Corrector, p: Progress, item: Item)
  {
    && NeedsCorrection(p, item)
    && var c := correct(p.next, WhisperLines(item));
       c.result.Some? && c.result.value != "" && !item.columnBFails
  }

  /** Ledger rule for one item: the ledger only grows, and only by this item, and
      only after its corrected text has been written. */
  lemma ItemLedger(correct: Corrector, total: nat, p: Progress, item: Item)
    ensures forall x :: x in ItemStep(correct, total, p, item).ledger <==>
      x in p.ledger || (x == item.name && Ledgered(correct, p, item))
  {
  }

  /** An item already in the ledger, one without lines, one without a readable text
      file and one whose sheet steps fail get no correction call: no service outcome
      is used and at most the pause is logged. */
  lemma SkippedItemMakesNoCall(correct: Corrector, total: nat, p: Progress, item: Item)
    requires !NeedsCorrection(p, item)
    ensures ItemStep(correct, total, p, item).next == p.next
    ensures ItemStep(correct, total, p, item).log == p.log
         || ItemStep(correct, total, p, item).log == p.log + [Sleep(InterSpreadsheetDelay)]
    ensures ItemStep(correct, total, p, item).ledger == p.ledger
  {
    assert p.log + [] == p.log;
  }

  /** Over the whole run: a name is in the final ledger exactly when it was loaded
      from the state file or some item of that name was corrected and written. */
  lemma {:induction false} RunLedger(correct: Corrector, p0: Progress, items: seq<Item>, k: nat)
    requires k <= |items|
    ensures forall x :: x in AfterItems(correct, p0, items, k).ledger <==>
      x in p0.ledger ||
      exists j :: 0 <= j < k && x == items[j].name && Ledgered(correct, AfterItems(correct, p0, items, j), items[j])
  {
    if k > 0 {
      RunLedger(correct, p0, items, k - 1);
      var prev := AfterItems(correct, p0, items, k - 1);
      ItemLedger(correct, |items|, prev, items[k - 1]);
      forall x | x in AfterItems(correct, p0, items, k).ledger
        ensures x in p0.ledger ||
          exists j :: 0 <= j < k && x == items[j].name && Ledgered(correct, AfterItems(correct, p0, items, j), items[j])
      {
        if x !in prev.ledger {
          assert x == items[k - 1].name && Ledgered(correct, AfterItems(correct, p0, items, k - 1), items[k - 1]);
        }
      }
      forall x | x in p0.ledger ||
          exists j :: 0 <= j < k && x == items[j].name && Ledgered(correct, AfterItems(correct, p0, items, j), items[j])
        ensures x in AfterItems(correct, p0, items, k).ledger
      {
        if x !in p0.ledger {
          var j :| 0 <= j < k && x == items[j].name && Ledgered(correct, AfterItems(correct, p0, items, j), items[j]);
          if j < k - 1 {
            assert x in prev.ledger;
          }
        }
      }
    }
  }

  /** The ledger never loses a name during a run, so an item corrected once is
      skipped by every later item of the same name. */
  lemma {:induction false} LedgerGrows(correct: Corrector, p0: Progress, items: seq<Item>, j: nat, k: nat)
    requires j <= k <= |items|
    ensures AfterItems(correct, p0, items, j).ledger <= AfterItems(correct, p0, items, k).ledger
    decreases k - j
  {
    if j < k {
      LedgerGrows(correct, p0, items, j, k - 1);
      ItemLedger(correct, |items|, AfterItems(correct, p0, items, k - 1), items[k - 1]);
    }
  }

  /** At most one correction per name: once an item has entered the ledger, no later
      item of the same name reaches the correction. */
  lemma CorrectedOnce(correct: Corrector, p0: Progress, items: seq<Item>, j: nat, k: nat)
    requires j < k < |items|
    requires items[j].name == items[k].name && Ledgered(correct, AfterItems(correct, p0, items, j), items[j])
    ensures !NeedsCorrection(AfterItems(correct, p0, items, k), items[k])
  {
    ItemLedger(correct, |items|, AfterItems(correct, p0, items, j), items[j]);
    assert items[j].name in AfterItems(correct, p0, items, j + 1).ledger;
    LedgerGrows(correct, p0, items, j + 1, k);
    assert items[k].name in AfterItems(correct, p0, items, k).ledger;
  }

  /** Once the run has raised, no later item changes anything. */
  lemma {:induction false} RaisedSticks(correct: Corrector, p0: Progress, items: seq<Item>, j: nat, k: nat)
    requires j <= k <= |items| && AfterItems(correct, p0, items, j).raised
    ensures AfterItems(correct, p0, items, k) == AfterItems(correct, p0, items, j)
    ensures LastLedgered(correct, p0, items, k) == LastLedgered(correct, p0, items, j)
    decreases k - j
  {
    if j < k {
      RaisedSticks(correct, p0, items, j, k - 1);
    }
  }

  /** An unreadable text file ends the run at its item: the run ends as it stood
      before that item, and no later item is read, corrected, ledgered or counted. */
  lemma ReadErrorEndsRun(correct: Corrector, p0: Progress, items: seq<Item>, j: nat)
    requires j < |items| && items[j].normal.ReadFails?
    ensures AfterItems(correct, p0, items, |items|) == AfterItems(correct, p0, items, j).(raised := true)
  {
    RaisedSticks(correct, p0, items, j + 1, |items|);
  }

  /** Item `m` of the run entered the ledger. */
  predicate LedgeredAt(correct: Corrector, p0: Progress, items: seq<Item>, m: nat)
    requires m < |items|
  {
    Ledgered(correct, AfterItems(correct, p0, items, m), items[m])
  }

  /** The last of the first `k` items that entered the ledger, if any: the item
      whose save decides what the state file holds. */
  function LastLedgered(correct: Corrector, p0: Progress, items: seq<Item>, k: nat): (r: Option<nat>)
    requires k <= |items|
    ensures r.Some? ==> r.value < k
  {
    if k == 0 then None
    else if LedgeredAt(correct, p0, items, k - 1) then Some(k - 1)
    else LastLedgered(correct, p0, items, k - 1)
  }

  /** `LastLedgered` names the item that entered the ledger last: no later item
      entered it, so the ledger has not changed since. */
  lemma {:induction false} LastLedgeredSome(correct: Corrector, p0: Progress, items: seq<Item>, k: nat, j: nat)
    requires k <= |items| && LastLedgered(correct, p0, items, k) == Some(j)
    ensures LedgeredAt(correct, p0, items, j)
    ensures AfterItems(correct, p0, items, k).ledger == AfterItems(correct, p0, items, j + 1).ledger
    ensures forall m :: j < m < k ==> !LedgeredAt(correct, p0, items, m)
  {
    if !LedgeredAt(correct, p0, items, k - 1) {
      LastLedgeredSome(correct, p0, items, k - 1, j);
      StepKeepsLedger(correct, p0, items, k);
    }
  }

  /** When `LastLedgered` names no item, no item entered the ledger and it is the
      loaded one. */
  lemma {:induction false} LastLedgeredNone(correct: Corrector, p0: Progress, items: seq<Item>, k: nat)
    requires k <= |items| && LastLedgered(correct, p0, items, k).None?
    ensures AfterItems(correct, p0, items, k).ledger == p0.ledger
    ensures forall m :: 0 <= m < k ==> !LedgeredAt(correct, p0, items, m)
  {
    if k > 0 {
      LastLedgeredNone(correct, p0, items, k - 1);
      StepKeepsLedger(correct, p0, items, k);
    }
  }

  lemma LastLedgeredStep(correct: Corrector, p0: Progress, items: seq<Item>, i: nat)
    requires i < |items|
    ensures LastLedgered(correct, p0, items, i + 1)
         == if Ledgered(correct, AfterItems(correct, p0, items, i), items[i]) then Some(i)
            else LastLedgered(correct, p0, items, i)
  {
  }

  lemma StepKeepsLedger(correct: Corrector, p0: Progress, items: seq<Item>, k: nat)
    requires 0 < k <= |items| && !LedgeredAt(correct, p0, items, k - 1)
    ensures AfterItems(correct, p0, items, k).ledger == AfterItems(correct, p0, items, k - 1).ledger
  {
    ItemLedger(correct, |items|, AfterItems(correct, p0, items, k - 1), items[k - 1]);
  }

  /** What the correction is called with during a run: whether the key is
      configured, the service, the handout text and the prompt pair. */
  datatype Setup = Setup(configured: bool, service: nat -> Outcome<string>, pdfContext: string,
                         mainInstruction: string, rules: seq<Piece>)

  /** `correct` is the Gemini correction under `setup`. */
  ghost predicate IsGeminiCorrection(setup: Setup, correct: Corrector) {
    && CountOnly(setup.rules)
    && forall next: nat, lines: seq<string> :: correct(next, lines)
         == GeminiCorrection(setup.configured, setup.service, next,
                             Job(lines, setup.pdfContext, setup.mainInstruction, setup.rules))
  }

  /** What is written to column B has one row per line of the item's text: the
      driver's `split('\n')` of a successful correction gives back as many lines as
      `splitlines` gave. */
  lemma ColumnBRows(setup: Setup, correct: Corrector, next: nat, item: Item)
    requires IsGeminiCorrection(setup, correct)
    requires item.normal.Text? && WhisperLines(item) != []
    ensures var c := correct(next, WhisperLines(item));
      c.result.Some? ==> |Split(c.result.value, '\n')| == |WhisperLines(item)|
  {
    var lines := WhisperLines(item);
    forall i | 0 <= i < |lines| ensures '\n' !in lines[i] {
      assert NoLineBreak(lines[i]);
      assert IsLineBreak('\n');
    }
    CorrectionLines(setup.configured, setup.service, next, Job(lines, setup.pdfContext, setup.mainInstruction, setup.rules));
  }

  /** What the state file holds part-way through the run, given the last ledgered
      item so far: never a name missing from the ledger in memory; untouched while
      no item was ledgered; exactly the ledger, with no temporary file, when the
      last ledgered item was saved without a fault. */
  predicate DiskFollows(items: seq<Item>, last: Option<nat>, disk0: Disk, after: Disk, ledger: set<string>) {
    && LoadGeminiState(after.state).Some? && LoadGeminiState(after.state).value <= ledger
    && (last.None? ==> after == disk0)
    && (last.Some? && last.value < |items| && items[last.value].saveFault == NoFault ==>
          LoadGeminiState(after.state) == Some(ledger) && after.temp == Absent)
  }

  /** One iteration of `for item_name in item_names`, with the state file: an item
      that is not newly ledgered leaves the disk alone; a newly ledgered item is saved
      at once, so that after a completed save the state file holds exactly the new
      ledger, and after a failed one it loads as before. An unreadable text file
      raises, given as `raised`. */
  method ProcessItem(setup: Setup, ghost correct: Corrector, total: nat, p: Progress, disk: Disk, item: Item)
    returns (q: Progress, after: Disk)
    requires IsGeminiCorrection(setup, correct)
    requires LoadGeminiState(disk.state).Some? && LoadGeminiState(disk.state).value <= p.ledger
    ensures q == ItemStep(correct, total, p, item)
    ensures LoadGeminiState(after.state).Some? && LoadGeminiState(after.state).value <= q.ledger
    ensures !Ledgered(correct, p, item) ==> after == disk && q.ledger == p.ledger
    ensures Ledgered(correct, p, item) && item.saveFault == NoFault ==>
      LoadGeminiState(after.state) == Some(q.ledger) && after.temp == Absent
    ensures Ledgered(correct, p, item) && item.saveFault != NoFault ==>
      LoadGeminiState(after.state) == LoadGeminiState(disk.state)
  {
    q, after := p, disk;
    if p.raised || item.normal.Missing? {
      return;
    }
    if item.normal.ReadFails? {
      q := p.(raised := true);
      return;
    }
    if item.setupFails {
      return;
    }
    var lines := SplitLines(item.normal.content);
    if item.name !in p.ledger && lines != [] {
      var job := Job(lines, setup.pdfContext, setup.mainInstruction, setup.rules);
      var c := GetGeminiCorrection(setup.configured, setup.service, p.next, job);
      assert c == correct(p.next, lines);
      q := p.(next := c.next, log := p.log + c.log);
      if c.result.Some? && c.result.value != "" {
        if item.columnBFails {
          return;
        }
        q := q.(ledger := q.ledger + {item.name});
        var order;
        after, order := SaveGeminiState(disk, q.ledger, item.saveFault);
        if item.saveFault == NoFault {
          SaveThenLoad(disk, q.ledger, order);
        } else {
          FailedSaveKeepsLedger(disk, order, item.saveFault);
        }
      }
    }
    q := Complete(q, total);
  }

  /** The item loop: the ledger in memory follows `AfterItems`, and the state file
      follows the saves: untouched when no item was ledgered, and holding exactly the
      final ledger when the last ledgered item was saved without a fault. An
      unreadable text file breaks the loop. */
  method ProcessItems(setup: Setup, ghost correct: Corrector, p0: Progress, disk: Disk, items: seq<Item>)
    returns (p: Progress, after: Disk)
    requires IsGeminiCorrection(setup, correct)
    requires LoadGeminiState(disk.state).Some? && LoadGeminiState(disk.state).value <= p0.ledger
    ensures p == AfterItems(correct, p0, items, |items|)
    ensures LoadGeminiState(after.state).Some? && LoadGeminiState(after.state).value <= p.ledger
    ensures LastLedgered(correct, p0, items, |items|).None? ==> after == disk
    ensures var last := LastLedgered(correct, p0, items, |items|);
      last.Some? && items[last.value].saveFault == NoFault ==>
        LoadGeminiState(after.state) == Some(p.ledger) && after.temp == Absent
  {
    p := p0;
    after := disk;
    for i := 0 to |items|
      invariant p == AfterItems(correct, p0, items, i)
      invariant DiskFollows(items, LastLedgered(correct, p0, items, i), disk, after, p.ledger)
    {
      LastLedgeredStep(correct, p0, items, i);
      p, after := ProcessItem(setup, correct, |items|, p, after, items[i]);
      if p.raised {
        RaisedSticks(correct, p0, items, i + 1, |items|);
        break;
      }
    }
  }

  /** `process_transcriptions_and_apply_gemini`: nothing without a sheets client; a
      ledger read error ends it before any item; otherwise the item loop runs from
      the loaded ledger, with the state file as `ProcessItems` leaves it. */
  method ProcessTranscriptions(clientReady: bool, setup: Setup, ghost correct: Corrector, start: nat,
                               disk: Disk, items: seq<Item>)
    returns (o: RunEnd, after: Disk)
    requires IsGeminiCorrection(setup, correct)
    ensures o == Drive(clientReady, correct, start, disk.state, items)
    ensures o.NoClient? || o.LoadFailed? ==> after == disk
    ensures o.ReadFailed? || o.Finished? ==>
      var last := LastLedgered(correct, Start(LoadGeminiState(disk.state).value, start), items, |items|);
      && LoadGeminiState(after.state).Some? && LoadGeminiState(after.state).value <= o.progress.ledger
      && (last.None? ==> after == disk)
      && (last.Some? && items[last.value].saveFault == NoFault ==>
            LoadGeminiState(after.state) == Some(o.progress.ledger) && after.temp == Absent)
  {
    after := disk;
    if !clientReady {
      return NoClient, after;
    }
    var loaded := LoadGeminiState(disk.state);
    if loaded.None? {
      return LoadFailed, after;
    }
    var p;
    p, after := ProcessItems(setup, correct, Start(loaded.value, start), disk, items);
    o := if p.raised then ReadFailed(p) else Finished(p);
  }
}
