/** The processed-items ledger: a JSON list of names kept in a state file. Loading
    gives the set of names; saving writes some enumeration of the set to a temporary
    file next to the state file and then renames it over the state file, so the
    state file only ever holds a complete list. The sheets processor uses one pair
    of functions (`load_gemini_processed_state`, `save_gemini_processed_state`), the
    local transcriber another (`load_processed_files`, `save_processed_files`); they
    differ in which errors they catch and in cleaning up the temporary file.

    The file system is a value: what the state file holds and what its `.tmp`
    sibling holds. */
module Ledger {
  import opened Wrappers

  /** What a file holds, as far as loading it can tell: nothing, something that
      cannot be read as text, text that is not JSON, JSON that is not a list, a list
      with an unhashable element, or a list of names. */
  datatype Store = Absent | Unreadable | Undecodable | NonList | UnhashableList | List(items: seq<string>)

  /** The state file and its temporary sibling. */
  datatype Disk = Disk(state: Store, temp: Store)

  function Items(s: seq<string>): set<string> {
    set i | 0 <= i < |s| :: s[i]
  }

  predicate Distinct(s: seq<string>) {
    forall i, j :: 0 <= i < j < |s| ==> s[i] != s[j]
  }

  /** `load_gemini_processed_state`: a missing file, undecodable JSON, a non-list and
      an unhashable element (the caught `TypeError`) all give the empty set; a read
      error is not caught and ends the run, given here as no result. */
  function LoadGeminiState(s: Store): Option<set<string>> {
    match s
      case Absent => Some({})
      case Unreadable => None
      case Undecodable => Some({})
      case NonList => Some({})
      case UnhashableList => Some({})
      case List(items) => Some(Items(items))
  }

  /** `load_processed_files`: every error is caught and gives the empty set. */
  function LoadProcessedFiles(s: Store): set<string> {
    if s.List? then Items(s.items) else {}
  }

  /** The two loaders agree on every file that can be read; only a read error sets
      them apart. Both give back exactly the names of a list file, and nothing for
      anything else. */
  lemma LoadersAgree(s: Store)
    ensures LoadGeminiState(s).None? <==> s == Unreadable
    ensures s != Unreadable ==> LoadGeminiState(s) == Some(LoadProcessedFiles(s))
    ensures s.List? ==> forall x :: x in LoadProcessedFiles(s) <==> x in s.items
    ensures !s.List? ==> LoadProcessedFiles(s) == {}
  {
    if s.List? {
      forall x ensures x in LoadProcessedFiles(s) <==> x in s.items {
        if x in s.items {
          var i :| 0 <= i < |s.items| && s.items[i] == x;
          assert s.items[i] in Items(s.items);
        }
      }
    }
  }

  /** `list(processed_items_set)`: the set's names in some order, each once. */
  method Enumerate(names: set<string>) returns (order: seq<string>)
    ensures Items(order) == names && Distinct(order) && |order| == |names|
  {
    order := [];
    var rest := names;
    while rest != {}
      invariant EnumerationSoFar(names, order, rest)
      decreases |rest|
    {
      var x :| x in rest;
      EnumerateStep(names, order, rest, x);
      order := order + [x];
      rest := rest - {x};
    }
  }

  /** The loop invariant of `Enumerate`: the names listed so far, each once, and the
      names still to list make up the set. */
  predicate EnumerationSoFar(names: set<string>, order: seq<string>, rest: set<string>) {
    Items(order) + rest == names && Items(order) !! rest && Distinct(order) && |order| + |rest| == |names|
  }

  lemma EnumerateStep(names: set<string>, order: seq<string>, rest: set<string>, x: string)
    requires EnumerationSoFar(names, order, rest) && x in rest
    ensures EnumerationSoFar(names, order + [x], rest - {x})
  {
    AppendItems(order, x);
    var t := order + [x];
    forall i, j | 0 <= i < j < |t| ensures t[i] != t[j] {
      if j == |order| {
        assert t[i] == order[i] && order[i] in Items(order);
      } else {
        assert t[i] == order[i] && t[j] == order[j];
      }
    }
    assert |rest - {x}| == |rest| - 1;
  }

  lemma AppendItems(s: seq<string>, x: string)
    ensures Items(s + [x]) == Items(s) + {x}
  {
    var t := s + [x];
    forall y | y in Items(t) ensures y in Items(s) + {x} {
      var i :| 0 <= i < |t| && t[i] == y;
      if i < |s| { assert s[i] == y; }
    }
    forall y | y in Items(s) ensures y in Items(t) {
      var i :| 0 <= i < |s| && s[i] == y;
      assert t[i] == y;
    }
    assert t[|s|] == x;
  }

  /** Where a save can fail: creating the directory, opening the temporary file,
      writing it, or renaming it over the state file. */
  datatype Fault = NoFault | DirFails | OpenFails | DumpFails | ReplaceFails

  /** The disk after a save of `order`, up to the point where `fault` strikes. A
      failed write leaves a truncated temporary file. */
  function AfterSave(disk: Disk, order: seq<string>, fault: Fault): Disk {
    match fault
      case NoFault => Disk(List(order), Absent)
      case DirFails => disk
      case OpenFails => disk
      case DumpFails => disk.(temp := Undecodable)
      case ReplaceFails => disk.(temp := List(order))
  }

  /** `save_gemini_processed_state`: errors are logged and swallowed; the temporary
      file is left as the failure left it. */
  method SaveGeminiState(disk: Disk, names: set<string>, fault: Fault) returns (after: Disk, order: seq<string>)
    ensures Items(order) == names && Distinct(order)
    ensures after == AfterSave(disk, order, fault)
  {
    order := Enumerate(names);
    after := AfterSave(disk, order, fault);
  }

  /** `save_processed_files`: as above, but after a failure a temporary file that
      exists is removed, unless removing it fails too. */
  method SaveProcessedFiles(disk: Disk, names: set<string>, fault: Fault, removeFails: bool)
    returns (after: Disk, order: seq<string>)
    ensures Items(order) == names && Distinct(order)
    ensures after == if fault == NoFault || removeFails || AfterSave(disk, order, fault).temp == Absent
                     then AfterSave(disk, order, fault)
                     else AfterSave(disk, order, fault).(temp := Absent)
  {
    order := Enumerate(names);
    after := AfterSave(disk, order, fault);
    if fault != NoFault && after.temp != Absent && !removeFails {
      after := after.(temp := Absent);
    }
  }

  /** The atomic replace: whatever happens, the state file either keeps what it held
      or, after a completed save, holds the complete list that was written. */
  lemma StateFileNeverPartial(disk: Disk, order: seq<string>, fault: Fault)
    ensures var st := AfterSave(disk, order, fault).state;
      st == disk.state || (st == List(order) && fault == NoFault)
  {
  }

  /** A completed save loads back to the saved set, with either loader. */
  lemma SaveThenLoad(disk: Disk, names: set<string>, order: seq<string>)
    requires Items(order) == names
    ensures LoadGeminiState(AfterSave(disk, order, NoFault).state) == Some(names)
    ensures LoadProcessedFiles(AfterSave(disk, order, NoFault).state) == names
    ensures AfterSave(disk, order, NoFault).temp == Absent
  {
  }

  /** A failed save changes nothing either loader sees. */
  lemma FailedSaveKeepsLedger(disk: Disk, order: seq<string>, fault: Fault)
    requires fault != NoFault
    ensures LoadGeminiState(AfterSave(disk, order, fault).state) == LoadGeminiState(disk.state)
    ensures LoadProcessedFiles(AfterSave(disk, order, fault).state) == LoadProcessedFiles(disk.state)
  {
  }
}
