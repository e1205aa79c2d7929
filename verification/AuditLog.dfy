/** Appending one record to the audit log (src/audit.rs), call by call, and what of it a reader finds
    and power loss leaves. */
module AuditLog {
  import opened LockDiscipline
  import opened Lifecycle

  // `synced` bytes of the file have reached the disk; `linked` says whether its directory entry has.
  datatype LogFile = NoFile | LogFile(contents: string, synced: nat, linked: bool)

  function Contents(f: LogFile): string {
    if f.NoFile? then "" else f.contents
  }

  ghost predicate Valid(f: LogFile) {
    f.LogFile? ==> f.synced <= |f.contents|
  }

  // Where the sequence of calls stops: opening or creating the file; inspecting it, setting its
  // permissions or syncing it while it is new; syncing the directory; writing, after some of the text;
  // syncing the file; syncing the directory again. Or nowhere.
  datatype Stop = AtOpen | AtSecuring | AtLinking | AtWriting(written: nat) | AtSyncing | AtLinkingAgain | Nowhere

  /** The stops that can happen: the directory is only synced for a new file, and a write that fails has
      not written everything. */
  predicate Possible(f: LogFile, line: string, stop: Stop) {
    && (stop.AtLinking? || stop.AtLinkingAgain? ==> f.NoFile?)
    && (stop.AtWriting? ==> stop.written < |line|)
  }

  /** What a call that stops there leaves, and what its caller learns. */
  function Appended(f: LogFile, line: string, stop: Stop): (r: (LogFile, AuditResult))
    requires Possible(f, line, stop)
  {
    var before := Contents(f);
    var synced := if f.NoFile? then 0 else f.synced;
    var linked := f.NoFile? || f.linked;
    match stop
    case AtOpen => (f, NotRecorded)
    case AtSecuring => (LogFile(before, synced, f.LogFile? && f.linked), NotRecorded)
    case AtLinking => (LogFile(before, 0, false), NotRecorded)
    case AtWriting(written) => (LogFile(before + line[..written], synced, linked), NotRecorded)
    case AtSyncing => (LogFile(before + line, synced, linked), MaybeRecorded)
    case AtLinkingAgain => (LogFile(before + line, |before + line|, linked), MaybeRecorded)
    case Nowhere => (LogFile(before + line, |before + line|, linked), Recorded)
  }

  /** What of the line a call that stops there has written. */
  function Piece(line: string, stop: Stop): string
    requires stop.AtWriting? ==> stop.written < |line|
  {
    match stop
    case AtOpen => ""
    case AtSecuring => ""
    case AtLinking => ""
    case AtWriting(written) => line[..written]
    case _ => line
  }

  class AnchoredAuditLog {
    var file: LogFile

    /** Open or create, secure, and if the file is new make it and its entry durable; then write and sync. */
    method Persist(line: string, reliable: bool) returns (ok: bool, ghost stop: Stop)
      requires Valid(file)
      modifies this
      ensures Valid(file) && Possible(old(file), line, stop)
      ensures file == Appended(old(file), line, stop).0
      ensures ok <==> Appended(old(file), line, stop).1.Recorded?
      ensures Contents(file) == Contents(old(file)) + Piece(line, stop)
      ensures reliable ==> ok
    {
      var failed: bool := *;
      if failed && !reliable {
        return false, AtOpen;
      }
      var newlyCreated := file.NoFile?;
      if newlyCreated {
        file := LogFile("", 0, false);
      }
      failed := *;
      if failed && !reliable {
        return false, AtSecuring;
      }
      if newlyCreated {
        failed := *;
        if failed && !reliable {
          return false, AtLinking;
        }
        file := file.(linked := true);
      }
      var written: int := *;
      if 0 <= written < |line| && !reliable {
        file := file.(contents := file.contents + line[..written]);
        return false, AtWriting(written);
      }
      file := file.(contents := file.contents + line);
      failed := *;
      if failed && !reliable {
        return false, AtSyncing;
      }
      file := file.(synced := |file.contents|);
      failed := *;
      if failed && !reliable && newlyCreated {
        return false, AtLinkingAgain;
      }
      return true, Nowhere;
    }
  }

  // ---------------------------------------------------------------- durability

  /** What power loss can leave: what has been synced and perhaps more, and if the entry has not been, perhaps
      nothing. What comes back is on disk, and so is its entry. */
  ghost predicate AfterPowerLoss(f: LogFile, lost: LogFile) {
    match f
    case NoFile => lost.NoFile?
    case LogFile(contents, synced, linked) =>
      || (!linked && lost.NoFile?)
      || ( && lost.LogFile? && lost.linked && lost.synced == |lost.contents|
           && synced <= |lost.contents| <= |contents| && lost.contents == contents[..|lost.contents|])
  }

  // What happens to the log over time. An append cut short by the death of the process is one that stops there.
  datatype LogEvent = Append(line: string, stop: Stop) | PowerLoss

  ghost predicate LogStep(f: LogFile, e: LogEvent, next: LogFile) {
    match e
    case Append(line, stop) => line != "" && Possible(f, line, stop) && next == Appended(f, line, stop).0
    case PowerLoss => AfterPowerLoss(f, next)
  }

  ghost predicate StepAt(files: seq<LogFile>, events: seq<LogEvent>, k: nat)
    requires |files| == |events| + 1 && k < |events|
  {
    LogStep(files[k], events[k], files[k + 1])
  }

  ghost predicate LogRun(files: seq<LogFile>, events: seq<LogEvent>) {
    && |files| == |events| + 1
    && files[0] == NoFile
    && forall k: nat | k < |events| :: StepAt(files, events, k)
  }

  /** Event `i` is an append whose caller was told that its record is written. */
  predicate Confirmed(events: seq<LogEvent>, i: nat) {
    i < |events| && events[i].Append? && events[i].stop.Nowhere?
  }

  /** All that was in the log is still there. */
  predicate Keeps(f: LogFile, later: LogFile) {
    Contents(f) <= Contents(later)
  }

  /** Event `c` created the log, or power loss brought it back. */
  predicate Born(files: seq<LogFile>, events: seq<LogEvent>, c: nat)
    requires |files| == |events| + 1 && c < |events|
  {
    files[c + 1].LogFile? && (files[c].NoFile? || events[c].PowerLoss?)
  }

  /** The log after event `i` is the file that event `c` created or brought back. */
  ghost predicate SameFile(files: seq<LogFile>, events: seq<LogEvent>, c: nat, i: nat)
    requires |files| == |events| + 1 && c <= i < |events|
  {
    && Born(files, events, c)
    && forall k: nat | c < k <= i :: !Born(files, events, k) && files[k + 1].LogFile?
  }

  /** A call that created the log got past its directory sync. */
  predicate Anchors(e: LogEvent) {
    e.PowerLoss? || (!e.stop.AtSecuring? && !e.stop.AtLinking?)
  }

  /** Whether the log's directory entry is on disk was decided when the file came to be. */
  lemma {:induction false} LinkedSinceBirth(files: seq<LogFile>, events: seq<LogEvent>, i: nat) returns (c: nat)
    requires LogRun(files, events) && i < |events| && files[i + 1].LogFile?
    ensures c <= i && SameFile(files, events, c, i)
    ensures files[i + 1].linked <==> Anchors(events[c])
  {
    assert StepAt(files, events, i);
    if Born(files, events, i) {
      c := i;
    } else {
      c := LinkedSinceBirth(files, events, i - 1);
    }
  }

  /** Contents that are on disk under an entry that is on disk. */
  predicate OnDisk(contents: string, f: LogFile) {
    f.LogFile? && f.linked && |contents| <= f.synced <= |f.contents| && contents == f.contents[..|contents|]
  }

  lemma OnDiskStays(contents: string, f: LogFile, e: LogEvent, next: LogFile)
    requires OnDisk(contents, f) && LogStep(f, e, next)
    ensures OnDisk(contents, next)
  {
  }

  lemma {:induction false} OnDiskForGood(contents: string, files: seq<LogFile>, events: seq<LogEvent>, i: nat, m: nat)
    requires LogRun(files, events) && i <= m < |files| && OnDisk(contents, files[i])
    ensures OnDisk(contents, files[m])
    decreases m - i
  {
    if i < m {
      OnDiskForGood(contents, files, events, i, m - 1);
      assert StepAt(files, events, m - 1);
      OnDiskStays(contents, files[m - 1], events[m - 1], files[m]);
    }
  }

  /** `more` goes on from `files`. */
  ghost predicate Continues(files: seq<LogFile>, events: seq<LogEvent>, more: seq<LogFile>, moreEvents: seq<LogEvent>) {
    LogRun(more, moreEvents) && files <= more && events <= moreEvents
  }

  /** What was in the log at the end of `files` is there ever after, whatever appends and power losses follow. */
  ghost predicate KeptForever(files: seq<LogFile>, events: seq<LogEvent>)
    requires files != []
  {
    forall more, moreEvents | Continues(files, events, more, moreEvents) ::
      forall m: nat | |files| <= m < |more| :: Keeps(files[|files| - 1], more[m])
  }

  /** A log whose entry is not on disk can be gone after the next power loss. */
  lemma LostAtOnce(files: seq<LogFile>, events: seq<LogEvent>)
    requires LogRun(files, events) && files[|events|].LogFile? && !files[|events|].linked
    requires files[|events|].contents != ""
    ensures !KeptForever(files, events)
  {
    var more, moreEvents := files + [NoFile], events + [PowerLoss];
    forall k: nat | k < |moreEvents| ensures StepAt(more, moreEvents, k) {
      if k < |events| {
        assert StepAt(files, events, k);
      }
    }
    assert Continues(files, events, more, moreEvents);
    assert !Keeps(files[|events|], more[|files|]);
  }

  /** Over any history of appends, stopped anywhere, and power losses: a record reported as written, and all
      that was in the log before it, survives every continuation exactly if the call that created the log
      got past its directory sync, or the file has come back from a power loss since. */
  lemma ConfirmedSurvives(files: seq<LogFile>, events: seq<LogEvent>) returns (c: nat)
    requires LogRun(files, events) && events != [] && Confirmed(events, |events| - 1)
    ensures c < |events| && SameFile(files, events, c, |events| - 1)
    ensures KeptForever(files, events) <==> Anchors(events[c])
  {
    var i: nat := |events| - 1;
    var f := files[i + 1];
    assert StepAt(files, events, i);
    c := LinkedSinceBirth(files, events, i);
    if f.linked {
      forall more, moreEvents | Continues(files, events, more, moreEvents)
        ensures forall m: nat | |files| <= m < |more| :: Keeps(f, more[m])
      {
        assert more[i + 1] == f;
        forall m: nat | |files| <= m < |more| ensures Keeps(f, more[m]) {
          OnDiskForGood(f.contents, more, moreEvents, i + 1, m);
        }
      }
    } else {
      LostAtOnce(files, events);
    }
  }

  /** So if every call that ever creates the log gets past its directory sync, no confirmed record is ever lost. */
  lemma NoConfirmedRecordIsLost(files: seq<LogFile>, events: seq<LogEvent>, i: nat, m: nat)
    requires LogRun(files, events) && Confirmed(events, i) && i < m < |files|
    requires forall c: nat | c < |events| && Born(files, events, c) :: Anchors(events[c])
    ensures Keeps(files[i + 1], files[m])
  {
    assert StepAt(files, events, i);
    var c := LinkedSinceBirth(files, events, i);
    OnDiskForGood(files[i + 1].contents, files, events, i + 1, m);
  }

  /** The bad case can be reached: a first call creates the file and cannot sync the directory, a second
      one finds the file and reports success, and power loss then leaves no log at all. */
  lemma RecordedCanBeLost(first: string, second: string) returns (files: seq<LogFile>, events: seq<LogEvent>)
    requires first != "" && second != ""
    ensures LogRun(files, events) && |events| == 3
    ensures Confirmed(events, 1) && Contents(files[2]) == second && files[3] == NoFile
  {
    var left := LogFile("", 0, false);
    var next := Appended(left, second, Nowhere).0;
    files, events := [NoFile, left, next, NoFile], [Append(first, AtLinking), Append(second, Nowhere), PowerLoss];
    assert StepAt(files, events, 0) && StepAt(files, events, 1) && StepAt(files, events, 2);
  }

  // ---------------------------------------------------------------- what the log contains

  /** The texts stand in the log one behind the other, whatever lies between them. */
  ghost predicate InLog(contents: string, texts: seq<string>)
    decreases |texts|, 1
  {
    texts == [] || exists at: nat :: StandsAt(contents, texts, at)
  }

  ghost predicate StandsAt(contents: string, texts: seq<string>, at: nat)
    decreases |texts|, 0
  {
    && texts != []
    && var last := texts[|texts| - 1];
       && at + |last| <= |contents| && contents[at..at + |last|] == last
       && InLog(contents[..at], texts[..|texts| - 1])
  }

  lemma InLogGrows(contents: string, more: string, texts: seq<string>)
    requires InLog(contents, texts)
    ensures InLog(contents + more, texts)
  {
    if texts != [] {
      var at: nat :| StandsAt(contents, texts, at);
      var last := texts[|texts| - 1];
      assert (contents + more)[..at] == contents[..at];
      assert (contents + more)[at..at + |last|] == contents[at..at + |last|];
      assert StandsAt(contents + more, texts, at);
    }
  }

  lemma InLogAppends(contents: string, text: string, texts: seq<string>)
    requires InLog(contents, texts)
    ensures InLog(contents + text, texts + [text])
  {
    var all := texts + [text];
    assert all[..|all| - 1] == texts && all[|all| - 1] == text;
    assert (contents + text)[..|contents|] == contents && (contents + text)[|contents|..|contents| + |text|] == text;
    assert StandsAt(contents + text, all, |contents|);
  }

  // ---------------------------------------------------------------- what a reader finds

  /** The last piece of a cut text ends its line exactly if the text does. */
  lemma {:induction false} CutEnd(text: string)
    ensures Cut(text) == [] <==> text == ""
    ensures text != "" ==> (Ends(Cut(text)[|Cut(text)| - 1]) <==> Ends(text))
  {
    if text != "" {
      CutEnd(text[..|text| - 1]);
    }
  }

  lemma {:induction false} CutTorn(torn: string, more: string)
    requires torn != "" && !Ends(torn) && more != ""
    requires '\n' !in more[..|more| - 1]
    ensures |Cut(torn + more)| == |Cut(torn)|
    decreases |more|
  {
    CutEnd(torn);
    var front := more[..|more| - 1];
    assert (torn + more)[..|torn + more| - 1] == torn + front;
    if front == "" {
      assert torn + front == torn;
    } else {
      assert '\n' !in front[..|front| - 1];
      CutTorn(torn, front);
      CutEnd(torn + front);
      assert front[|front| - 1] in front;
      assert !Ends(torn + front);
    }
  }

  /** A reader that cuts the log at newlines finds the record as a line of its own exactly if the log was
      empty or ended its last line: behind a torn write, the next record is read as part of the torn line. */
  lemma RecordIsALine(f: LogFile, line: string)
    requires IsLine(line)
    ensures var next := Appended(f, line, Nowhere).0;
            Cut(next.contents) == Cut(Contents(f)) + [line] <==> Contents(f) == "" || Ends(Contents(f))
  {
    var before := Contents(f);
    CutEnd(before);
    if before == "" || Ends(before) {
      CutLine(before, line);
    } else {
      CutTorn(before, line);
    }
  }
}
