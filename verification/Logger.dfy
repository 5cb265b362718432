/** The rotating log of src/log/Logger.cpp over a file system that may refuse to remove, rename or
    open. Existence checks and the size of an open file are taken to be truthful, and writes to an
    open file to succeed. Console output, timestamps and thread ids are part of the line. */
module Logger {
  import opened Wrappers

  type Line = string

  /** A file: absent, or the lines written to it. */
  type File = Option<seq<Line>>

  const MAX_LOG_FILE_SIZE := 10 * 1024 * 1024

  /** Which calls fail, should they be made. */
  datatype Faults = Faults(remove: bool, rename: bool, open: bool)

  const NO_FAULTS := Faults(false, false, false)

  function Size(line: Line): nat {
    |line| + 1
  }

  function FileSize(lines: seq<Line>): nat {
    if lines == [] then 0 else FileSize(lines[..|lines| - 1]) + Size(lines[|lines| - 1])
  }

  function Contents(f: File): seq<Line> {
    if f.Some? then f.value else []
  }

  // ---------------------------------------------------------------------------
  // The steps as functions
  // ---------------------------------------------------------------------------

  /** `written` is everything that ever went to the file, including what was there at the start. */
  datatype LogState = LogState(open: bool, currentFileSize: nat, active: File, backup: File, written: seq<Line>)

  function OpenForAppend(s: LogState, fails: bool): LogState {
    if fails then s.(open := false)
    else s.(open := true, active := Some(Contents(s.active)), currentFileSize := FileSize(Contents(s.active)))
  }

  function OpenFresh(s: LogState, fails: bool): LogState {
    if fails then s.(open := false, currentFileSize := 0)
    else s.(open := true, active := Some([]), currentFileSize := 0)
  }

  function RotateStep(s: LogState, incomingBytes: nat, faults: Faults): LogState {
    if s.currentFileSize + incomingBytes <= MAX_LOG_FILE_SIZE then
      s
    else
      var s1 := if s.backup.Some? && !faults.remove then s.(backup := None) else s;
      if s1.active.Some? && faults.rename then
        OpenForAppend(s1, faults.open)
      else if s1.active.Some? then
        OpenFresh(s1.(backup := s1.active, active := None), faults.open)
      else
        OpenFresh(s1, faults.open)
  }

  function LogStep(s: LogState, line: Line, faults: Faults): LogState {
    var r := RotateStep(s, Size(line), faults);
    if r.open then
      r.(active := Some(Contents(r.active) + [line]), written := r.written + [line],
         currentFileSize := r.currentFileSize + Size(line))
    else r
  }

  function Construct(active: File, backup: File, faults: Faults, reopenFails: bool): LogState {
    var size := FileSize(Contents(active));
    var s := LogState(false, size, active, backup, Contents(backup) + Contents(active));
    OpenForAppend(if size >= MAX_LOG_FILE_SIZE then RotateStep(s, 0, faults) else s, reopenFails)
  }

  datatype Entry = Entry(line: Line, faults: Faults)

  function Run(s: LogState, entries: seq<Entry>): LogState {
    if entries == [] then s
    else
      var last := entries[|entries| - 1];
      LogStep(Run(s, entries[..|entries| - 1]), last.line, last.faults)
  }

  /** A log found on start becomes the backup exactly if it is longer than the limit, although the
      constructor asks for a rotation from the limit on. */
  lemma StartRotatesAboveTheLimit(active: File, backup: File, reopenFails: bool)
    requires active.Some?
    ensures var s := Construct(active, backup, NO_FAULTS, reopenFails);
            && s.backup == (if FileSize(active.value) > MAX_LOG_FILE_SIZE then active else backup)
            && s.active == (if FileSize(active.value) > MAX_LOG_FILE_SIZE then Some([]) else active)
            && (active != backup ==> (s.backup == active <==> FileSize(active.value) > MAX_LOG_FILE_SIZE))
  {
  }

  /** In particular a log of exactly the limit is left in place, whatever fails. */
  lemma StartKeepsFileAtTheLimit(active: File, backup: File, faults: Faults, reopenFails: bool)
    requires active.Some? && FileSize(active.value) == MAX_LOG_FILE_SIZE
    ensures var s := Construct(active, backup, faults, reopenFails); s.active == active && s.backup == backup
  {
  }

  /** Such a log exists: one line that fills the file. */
  lemma FileAtTheLimitStays() returns (active: File)
    ensures active.Some? && FileSize(active.value) == MAX_LOG_FILE_SIZE
    ensures Construct(active, None, NO_FAULTS, false).active == active
    ensures Construct(active, None, NO_FAULTS, false).backup == None
  {
    var line: Line := seq(MAX_LOG_FILE_SIZE - 1, i => 'x');
    active := Some([line]);
    assert [line][..0] == [];
    assert FileSize([line]) == FileSize([]) + Size(line);
    StartKeepsFileAtTheLimit(active, None, NO_FAULTS, false);
  }

  // ---------------------------------------------------------------------------
  // The logger
  // ---------------------------------------------------------------------------

  class FileLogger {
    var open: bool
    var currentFileSize: nat
    var active: File
    var backup: File
    ghost var written: seq<Line>

    ghost function State(): LogState
      reads this
    {
      LogState(open, currentFileSize, active, backup, written)
    }

    constructor (active: File, backup: File, faults: Faults, reopenFails: bool)
      ensures State() == Construct(active, backup, faults, reopenFails)
    {
      this.active, this.backup, open := active, backup, false;
      written := Contents(backup) + Contents(active);
      currentFileSize := if active.Some? then FileSize(active.value) else 0;
      new;
      if currentFileSize >= MAX_LOG_FILE_SIZE {
        RotateIfNeeded(0, faults);
      }
      OpenLogFile(reopenFails);
    }

    method OpenLogFile(fails: bool)
      modifies this
      ensures State() == OpenForAppend(old(State()), fails)
    {
      if open {
        open := false;
      }
      if fails {
        return;
      }
      if active.None? {
        active := Some([]);
      }
      open := true;
      currentFileSize := FileSize(active.value);
    }

    method RotateIfNeeded(incomingBytes: nat, faults: Faults)
      modifies this
      ensures State() == RotateStep(old(State()), incomingBytes, faults)
    {
      if currentFileSize + incomingBytes <= MAX_LOG_FILE_SIZE {
        return;
      }
      if open {
        open := false;
      }
      if backup.Some? {
        if !faults.remove {
          backup := None;
        }
      }
      if active.Some? {
        if faults.rename {
          OpenLogFile(faults.open);
          return;
        }
        backup, active := active, None;
      }
      currentFileSize := 0;
      if !faults.open {
        open, active := true, Some([]);
      }
    }

    method Log(line: Line, faults: Faults)
      modifies this
      ensures State() == LogStep(old(State()), line, faults)
    {
      var incomingBytes := |line| + 1;
      RotateIfNeeded(incomingBytes, faults);
      if open {
        active := Some(Contents(active) + [line]);
        written := written + [line];
        currentFileSize := currentFileSize + incomingBytes;
      }
    }
  }

  // ---------------------------------------------------------------------------
  // Results
  // ---------------------------------------------------------------------------

  predicate IsSuffix(part: seq<Line>, all: seq<Line>) {
    |part| <= |all| && all[|all| - |part|..] == part
  }

  function Kept(s: LogState): seq<Line> {
    Contents(s.backup) + Contents(s.active)
  }

  /** The files hold a contiguous suffix of everything written, whole lines only, and the counter
      is right while the file is open. */
  ghost predicate Inv(s: LogState) {
    && IsSuffix(Kept(s), s.written)
    && (s.open ==> s.active.Some? && s.currentFileSize == FileSize(s.active.value))
  }

  lemma SuffixOfSuffix(a: seq<Line>, b: seq<Line>, all: seq<Line>)
    requires IsSuffix(a + b, all)
    ensures IsSuffix(b, all) && IsSuffix([], all)
  {
    assert b == (a + b)[|a|..];
  }

  lemma SuffixGrows(part: seq<Line>, all: seq<Line>, line: Line)
    requires IsSuffix(part, all)
    ensures IsSuffix(part + [line], all + [line])
  {
    assert (all + [line])[|all| - |part|..] == all[|all| - |part|..] + [line];
  }

  lemma RotateKeeps(s: LogState, incomingBytes: nat, faults: Faults)
    requires Inv(s)
    ensures Inv(RotateStep(s, incomingBytes, faults))
  {
    hide IsSuffix;
    var r := RotateStep(s, incomingBytes, faults);
    SuffixOfSuffix(Contents(s.backup), Contents(s.active), s.written);
    assert Contents(s.active) + [] == Contents(s.active) && [] + Contents(s.active) == Contents(s.active);
    if s.active.None? {
      assert Contents(s.backup) + [] == Contents(s.backup);
    }
  }

  lemma LogKeeps(s: LogState, line: Line, faults: Faults)
    requires Inv(s)
    ensures Inv(LogStep(s, line, faults))
  {
    hide IsSuffix, RotateStep;
    var r := RotateStep(s, Size(line), faults);
    RotateKeeps(s, Size(line), faults);
    if r.open {
      SuffixGrows(Kept(r), r.written, line);
      var t := LogStep(s, line, faults);
      assert Kept(t) == Kept(r) + [line];
      assert t.active.value[..|t.active.value| - 1] == r.active.value;
    }
  }

  lemma ConstructKeeps(active: File, backup: File, faults: Faults, reopenFails: bool)
    ensures Inv(Construct(active, backup, faults, reopenFails))
  {
    var size := FileSize(Contents(active));
    var s := LogState(false, size, active, backup, Contents(backup) + Contents(active));
    RotateKeeps(s, 0, faults);
  }

  /** For every sequence of lines and every pattern of failures: backup followed by active is the
      end of everything written, and the size counter is that of the open file. */
  lemma {:induction false} FilesHoldASuffix(
    active: File, backup: File, faults: Faults, reopenFails: bool, entries: seq<Entry>)
    ensures Inv(Run(Construct(active, backup, faults, reopenFails), entries))
  {
    var s := Construct(active, backup, faults, reopenFails);
    if entries == [] {
      ConstructKeeps(active, backup, faults, reopenFails);
    } else {
      var last := entries[|entries| - 1];
      FilesHoldASuffix(active, backup, faults, reopenFails, entries[..|entries| - 1]);
      LogKeeps(Run(s, entries[..|entries| - 1]), last.line, last.faults);
    }
  }

  ghost predicate Faultless(entries: seq<Entry>) {
    forall i :: 0 <= i < |entries| ==> entries[i].faults == NO_FAULTS
  }

  /** The active file is within its limit unless it is one oversized line, everything written so
      far has been kept, or more than the limit has. */
  ghost predicate WithinLimits(s: LogState) {
    && s.open && s.active.Some?
    && (FileSize(s.active.value) <= MAX_LOG_FILE_SIZE || |s.active.value| == 1)
    && (Kept(s) == s.written || FileSize(Contents(s.backup)) + FileSize(s.active.value) > MAX_LOG_FILE_SIZE)
  }

  lemma LogStaysWithinLimits(s: LogState, line: Line)
    requires Inv(s) && WithinLimits(s)
    ensures WithinLimits(LogStep(s, line, NO_FAULTS))
  {
    hide FileSize;
    var t, before := LogStep(s, line, NO_FAULTS), s.active.value;
    if s.currentFileSize + Size(line) <= MAX_LOG_FILE_SIZE {
      FileSizeOneMore(before, line);
      assert t.active == Some(before + [line]) && t.written == s.written + [line];
      assert Kept(t) == Kept(s) + [line];
    } else {
      FileSizeOneMore([], line);
      EmptyFileSize();
      assert t.active == Some([] + [line]) && t.backup == Some(before);
    }
  }

  lemma FileSizeOneMore(lines: seq<Line>, line: Line)
    ensures FileSize(lines + [line]) == FileSize(lines) + Size(line)
  {
    assert (lines + [line])[..|lines|] == lines;
  }

  lemma EmptyFileSize()
    ensures FileSize([]) == 0
  {
  }

  lemma ConstructIsWithinLimits(active: File, backup: File)
    ensures WithinLimits(Construct(active, backup, NO_FAULTS, false))
  {
    var size := FileSize(Contents(active));
    var s := LogState(false, size, active, backup, Contents(backup) + Contents(active));
    assert FileSize([]) == 0;
    assert Kept(s) == s.written;
  }

  /** Without failures the active file never exceeds 10 MiB, a single longer line excepted, and
      nothing is dropped before the two files together exceed 10 MiB. */
  lemma {:induction false} LimitsHold(active: File, backup: File, entries: seq<Entry>)
    requires Faultless(entries)
    ensures WithinLimits(Run(Construct(active, backup, NO_FAULTS, false), entries))
  {
    var s := Construct(active, backup, NO_FAULTS, false);
    if entries == [] {
      ConstructIsWithinLimits(active, backup);
    } else {
      var before, last := entries[..|entries| - 1], entries[|entries| - 1];
      LimitsHold(active, backup, before);
      FilesHoldASuffix(active, backup, NO_FAULTS, false, before);
      LogStaysWithinLimits(Run(s, before), last.line);
    }
  }

  /** Exactly when a line is written: below the limit if the file is open, and beyond it if the rotation
      can open a file, whether a fresh one or, the rename having failed, the old one. A line that is
      not written is lost, and a written one is the last of the active file. */
  lemma WrittenExactly(s: LogState, line: Line, faults: Faults)
    ensures var t := LogStep(s, line, faults);
            var fits := s.currentFileSize + |line| + 1 <= 10_485_760;
            && t.written == (if (if fits then s.open else !faults.open) then s.written + [line] else s.written)
            && (t.written != s.written ==>
                  t.open && t.active.Some? && t.active.value != [] && t.active.value[|t.active.value| - 1] == line)
            && (fits && s.open ==> t.backup == s.backup && t.active == Some(Contents(s.active) + [line]))
  {
  }

  /** Exactly when a rotation takes place, and what it does when nothing fails. */
  lemma RotatesExactly(s: LogState, incomingBytes: nat)
    ensures var t := RotateStep(s, incomingBytes, NO_FAULTS);
            && (s.currentFileSize + incomingBytes <= 10_485_760 ==> t == s)
            && (s.currentFileSize + incomingBytes > 10_485_760 ==>
                  && t.open && t.currentFileSize == 0 && t.active == Some([]) && t.written == s.written
                  && t.backup == if s.active.Some? then s.active else None)
  {
  }

  function Lines(entries: seq<Entry>): (lines: seq<Line>)
    ensures |lines| == |entries|
  {
    seq(|entries|, i requires 0 <= i < |entries| => entries[i].line)
  }

  lemma LinesOneMore(entries: seq<Entry>)
    requires entries != []
    ensures Lines(entries) == Lines(entries[..|entries| - 1]) + [entries[|entries| - 1].line]
  {
  }

  /** What a rotation keeps, whatever fails: the active file always, the old backup only if neither
      removing it nor replacing it succeeded. It leaves the logger open exactly if it could open a file. */
  lemma RotationKeeps(s: LogState, incomingBytes: nat, faults: Faults)
    requires s.currentFileSize + incomingBytes > 10_485_760
    ensures var t, replaced := RotateStep(s, incomingBytes, faults), s.active.Some? && !faults.rename;
            && t.open == !faults.open && t.written == s.written
            && Contents(t.backup) + Contents(t.active)
               == (if faults.remove && !replaced then Contents(s.backup) else []) + Contents(s.active)
            && (s.active.Some? ==> (if replaced then t.backup else t.active) == s.active)
  {
  }

  lemma OpenLoggerWrites(s: LogState, line: Line)
    requires s.open
    ensures LogStep(s, line, NO_FAULTS).written == s.written + [line]
  {
    WrittenExactly(s, line, NO_FAULTS);
    hide LogStep;
  }

  lemma FoundAtStart(active: File, backup: File)
    ensures Construct(active, backup, NO_FAULTS, false).written == Contents(backup) + Contents(active)
  {
  }

  /** Without failures every line is written: what the files have ever held is what was found at the
      start, followed by all lines logged, in order. */
  lemma {:induction false} EveryLineIsWritten(active: File, backup: File, entries: seq<Entry>)
    requires Faultless(entries)
    ensures Run(Construct(active, backup, NO_FAULTS, false), entries).written
            == Contents(backup) + Contents(active) + Lines(entries)
  {
    hide Construct, LogStep, Lines, Contents;
    var s := Construct(active, backup, NO_FAULTS, false);
    if entries == [] {
      FoundAtStart(active, backup);
      assert Lines([]) == [];
    } else {
      var before, last := entries[..|entries| - 1], entries[|entries| - 1];
      EveryLineIsWritten(active, backup, before);
      LimitsHold(active, backup, before);
      OpenLoggerWrites(Run(s, before), last.line);
      LinesOneMore(entries);
      var found := Contents(backup) + Contents(active);
      assert found + Lines(before) + [last.line] == found + (Lines(before) + [last.line]);
    }
  }

  /** A logger whose file is closed writes a line exactly if that line overflows the counter and
      the rotation it triggers can open a file; the code never reopens for any other reason. */
  lemma ClosedLoggerWrites(s: LogState, line: Line, faults: Faults)
    requires !s.open
    ensures LogStep(s, line, faults).written == s.written + [line]
            <==> s.currentFileSize + Size(line) > MAX_LOG_FILE_SIZE && !faults.open
    ensures s.currentFileSize + Size(line) <= MAX_LOG_FILE_SIZE ==> LogStep(s, line, faults) == s
  {
    assert |s.written + [line]| == |s.written| + 1;
  }

  /** So after one failure to open the fresh file, no line of at most 10 MiB is ever logged. */
  lemma {:induction false} SilentAfterFailedRotation(s: LogState, line: Line, faults: Faults, entries: seq<Entry>)
    requires s.currentFileSize + Size(line) > MAX_LOG_FILE_SIZE && !faults.rename && faults.open
    requires forall i :: 0 <= i < |entries| ==> Size(entries[i].line) <= MAX_LOG_FILE_SIZE
    ensures Run(LogStep(s, line, faults), entries).written == s.written
    ensures Run(LogStep(s, line, faults), entries) == LogStep(s, line, faults)
  {
    var t := LogStep(s, line, faults);
    assert !t.open && t.currentFileSize == 0;
    if entries != [] {
      var last := entries[|entries| - 1];
      SilentAfterFailedRotation(s, line, faults, entries[..|entries| - 1]);
      ClosedLoggerWrites(t, last.line, last.faults);
    }
  }
  /** It happens: after a failed creation a short line is lost although nothing fails any more. */
  lemma LineIsLostAfterFailedRotation() returns (active: File, entries: seq<Entry>)
    ensures active.Some? && FileSize(active.value) == MAX_LOG_FILE_SIZE
    ensures entries == [Entry("x", Faults(false, false, true)), Entry("y", NO_FAULTS)]
    ensures var s := Construct(active, None, NO_FAULTS, false);
            s.open && Run(s, entries).written == s.written && !Run(s, entries).open
  {
    active := FileAtTheLimitStays();
    entries := [Entry("x", Faults(false, false, true)), Entry("y", NO_FAULTS)];
    StartKeepsFileAtTheLimit(active, None, NO_FAULTS, false);
    var s := Construct(active, None, NO_FAULTS, false);
    var first := entries[0];
    assert s.currentFileSize == MAX_LOG_FILE_SIZE;
    hide Construct;
    assert entries[..1] == [first] && [first][..0] == [];
    assert Run(s, [first]) == LogStep(s, "x", first.faults);
    assert Run(s, entries) == LogStep(Run(s, [first]), "y", NO_FAULTS);
  }
}
