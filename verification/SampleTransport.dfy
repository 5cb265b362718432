/** Snapshots over the wire: a printed snapshot always fits a frame, and every message a server
    delivers parses to the rounded snapshot that an agent printed. */
module SampleTransport {
  import opened Wrappers
  import opened Frames
  import opened Decimal
  import opened Metrics
  import opened Serializer
  import opened Deserializer
  import opened Printability
  import opened RoundTrip
  import Connection
  import Agent

  // ---------------------------------------------------------------------------
  // Length of the text
  // ---------------------------------------------------------------------------

  /** Bounds on one `name=value` line, text excluded, and on one process line, name excluded. */
  const FIELD_LINE_BOUND: nat := 343
  const PROCESS_LINE_BOUND: nat := 672
  const MAX_PROCESSES := 5
  const FIXED_BOUND := 11 + 21 * FIELD_LINE_BOUND + MAX_PROCESSES * PROCESS_LINE_BOUND

  function TotalLength(lines: seq<string>): nat {
    if lines == [] then 0 else TotalLength(lines[..|lines| - 1]) + |lines[|lines| - 1]| + 1
  }

  lemma {:induction false} UnlinesLength(lines: seq<string>)
    ensures |Unlines(lines)| == TotalLength(lines)
  {
    if lines != [] {
      UnlinesLength(lines[..|lines| - 1]);
    }
  }

  lemma {:induction false} TotalLengthAppend(a: seq<string>, b: seq<string>)
    ensures TotalLength(a + b) == TotalLength(a) + TotalLength(b)
  {
    if b == [] {
      assert a + b == a;
    } else {
      TotalLengthAppend(a, b[..|b| - 1]);
      assert (a + b)[..|a + b| - 1] == a + b[..|b| - 1];
    }
  }

  function NameLengths(processes: seq<ProcessMetric>): nat {
    if processes == [] then 0
    else NameLengths(processes[..|processes| - 1]) + |processes[|processes| - 1].name|
  }

  /** The characters of the snapshot's strings. */
  function TextLength(m: SystemMetrics): nat {
    |m.hostname| + |m.diskMountPoint| + |m.networkInterface| + NameLengths(m.topProcesses)
  }

  /** The strings among the first k fields. */
  function FieldTextLength(m: SystemMetrics, k: nat): nat {
    (if k > Position(Hostname) then |m.hostname| else 0)
    + (if k > Position(DiskMount) then |m.diskMountPoint| else 0)
    + (if k > Position(NetworkInterface) then |m.networkInterface| else 0)
  }

  lemma PrintedUint64Length(n: uint64)
    ensures |PrintNat(n)| <= 20
  {
    assert Pow10(5) == 100000;
    assert Pow10(10) == 100000 * 100000;
    assert Pow10(15) == 100000 * 100000 * 100000;
    assert Pow10(20) == 100000 * 100000 * 100000 * 100000;
    PrintedLength(n, 20);
  }

  lemma PrintedInt32Length(n: int32)
    ensures |PrintInt(n)| <= 11
  {
    assert Pow10(5) == 100000;
    assert Pow10(10) == 100000 * 100000;
    PrintedLength(if n < 0 then -(n as int) else n, 10);
  }

  lemma PrintedDoubleLength(d: Double)
    requires d.Finite()
    ensures |PrintDouble(d)| <= 314
  {
    hide RoundHalfEven;
    var h, limit := Hundredths(d), Pow10(309);
    assert h as real <= 100.0 * limit as real + 0.5;
    assert h <= 100 * limit;
    assert Pow10(310) == 10 * limit;
    PrintedLength(h / 100, 310);
  }

  /** What `buildMetrics` produces: finite doubles and at most five processes. */
  ghost predicate Built(m: SystemMetrics) {
    && |m.topProcesses| <= MAX_PROCESSES
    && FiniteNumbers(m)
  }

  lemma NameLength(f: Field)
    ensures |Name(f)| <= 27
  {
  }

  function TextSize(v: Value): nat {
    if v.TextValue? then |v.text| else 0
  }

  lemma FieldTextStep(m: SystemMetrics, f: Field)
    ensures FieldTextLength(m, Position(f) + 1) == FieldTextLength(m, Position(f)) + TextSize(ValueOf(m, f))
  {
  }

  lemma PrintedValueLength(m: SystemMetrics, f: Field)
    requires FiniteField(m, f) && (ValueOf(m, f).CountValue? ==> ValueOf(m, f).count < UINT64_LIMIT)
    ensures |PrintValue(ValueOf(m, f))| <= 314 + TextSize(ValueOf(m, f))
  {
    hide PrintNat, PrintDouble, Double.Finite, ValueOf;
    match ValueOf(m, f) {
      case TextValue(text) =>
      case CountValue(count) =>
        PrintedUint64Length(count);
      case NumberValue(number) =>
        PrintedDoubleLength(number);
    }
  }

  lemma CountsAreInRange(m: SystemMetrics, f: Field)
    requires |m.topProcesses| <= MAX_PROCESSES
    ensures ValueOf(m, f).CountValue? ==> ValueOf(m, f).count < UINT64_LIMIT
  {
  }

  lemma FieldLineLength(m: SystemMetrics, f: Field)
    requires Built(m)
    ensures |FieldLine(m, f)| + 1
            <= FIELD_LINE_BOUND + FieldTextLength(m, Position(f) + 1) - FieldTextLength(m, Position(f))
  {
    hide Name, PrintValue, ValueOf, FieldTextLength, FiniteField, Position;
    NameLength(f);
    FieldTextStep(m, f);
    CountsAreInRange(m, f);
    PrintedValueLength(m, f);
  }

  lemma FieldLineAt(m: SystemMetrics, i: nat) returns (f: Field)
    requires i < |FIELDS|
    ensures Position(f) == i && FieldLines(m)[i] == FieldLine(m, f)
  {
    hide FieldLine;
    f := FIELDS[i];
    FieldsArePositions(i, f);
  }

  lemma {:induction false} FieldLinesLength(m: SystemMetrics, k: nat)
    requires Built(m) && k <= |FIELDS|
    ensures TotalLength(FieldLines(m)[..k]) <= k * FIELD_LINE_BOUND + FieldTextLength(m, k)
  {
    if k > 0 {
      hide FieldTextLength, FieldLine, FieldLines, Built, Position;
      var f := FieldLineAt(m, k - 1);
      FieldLinesLength(m, k - 1);
      FieldLineLength(m, f);
      hide TotalLength;
      TotalLengthOneMore(FieldLines(m), k - 1);
      OneMore(k, FIELD_LINE_BOUND);
    }
  }

  lemma AllFieldLinesLength(m: SystemMetrics)
    requires Built(m)
    ensures TotalLength(FieldLines(m)) <= 21 * FIELD_LINE_BOUND + FieldTextLength(m, 21)
  {
    hide FieldTextLength, FieldLine, Built, TotalLength;
    FieldLinesLength(m, 21);
    assert FieldLines(m)[..21] == FieldLines(m);
  }

  lemma ProcessLineLength(p: ProcessMetric)
    requires p.cpuUsagePercent.Finite() && p.memoryUsagePercent.Finite()
    ensures |ProcessLine(p)| + 1 <= PROCESS_LINE_BOUND + |p.name|
  {
    hide PrintInt, PrintNat, PrintDouble, Double.Finite;
    PrintedInt32Length(p.pid);
    PrintedDoubleLength(p.cpuUsagePercent);
    PrintedDoubleLength(p.memoryUsagePercent);
    PrintedUint64Length(p.residentMemoryKB);
  }

  lemma TotalLengthOneMore(lines: seq<string>, k: nat)
    requires k < |lines|
    ensures TotalLength(lines[..k + 1]) == TotalLength(lines[..k]) + |lines[k]| + 1
  {
    assert lines[..k + 1][..k] == lines[..k];
  }

  lemma OneMore(k: nat, bound: nat)
    requires k > 0
    ensures k * bound == (k - 1) * bound + bound
  {
  }

  lemma NameLengthsOneMore(processes: seq<ProcessMetric>, k: nat)
    requires k < |processes|
    ensures NameLengths(processes[..k + 1]) == NameLengths(processes[..k]) + |processes[k].name|
  {
    assert processes[..k + 1][..k] == processes[..k];
  }

  lemma ProcessLineAt(m: SystemMetrics, i: nat)
    requires Built(m) && i < |m.topProcesses|
    ensures |ProcessLines(m)[i]| + 1 <= PROCESS_LINE_BOUND + |m.topProcesses[i].name|
  {
    hide ProcessLine, FiniteField, Double.Finite;
    assert m.topProcesses[i] in m.topProcesses;
    ProcessLineLength(m.topProcesses[i]);
  }

  lemma NothingHasNoLength()
    ensures TotalLength([]) == 0
  {
  }

  lemma {:induction false} ProcessLinesLength(m: SystemMetrics, k: nat)
    requires Built(m) && k <= |m.topProcesses|
    ensures TotalLength(ProcessLines(m)[..k]) <= k * PROCESS_LINE_BOUND + NameLengths(m.topProcesses[..k])
  {
    hide *;
    if k == 0 {
      NothingHasNoLength();
      assert ProcessLines(m)[..0] == [];
    } else {
      ProcessLinesLength(m, k - 1);
      ProcessLineAt(m, k - 1);
      TotalLengthOneMore(ProcessLines(m), k - 1);
      NameLengthsOneMore(m.topProcesses, k - 1);
      OneMore(k, PROCESS_LINE_BOUND);
    }
  }

  lemma AllFieldText(m: SystemMetrics)
    ensures FieldTextLength(m, 21) + NameLengths(m.topProcesses) == TextLength(m)
  {
  }

  lemma VersionLength()
    ensures TotalLength([PROTOCOL_VERSION]) == 11
  {
    assert [PROTOCOL_VERSION][..0] == [];
  }

  /** The printed snapshot is at most a constant longer than its strings. */
  lemma SerializedLength(m: SystemMetrics)
    requires Built(m)
    ensures |Unlines(SnapshotLines(m))| <= FIXED_BOUND + TextLength(m)
  {
    SnapshotLength(m);
    AllFieldLinesLength(m);
    AllProcessLinesLength(m);
    AllFieldText(m);
    assert |m.topProcesses| <= MAX_PROCESSES;
    hide *;
  }

  lemma AllProcessLinesLength(m: SystemMetrics)
    requires Built(m)
    ensures TotalLength(ProcessLines(m)) <= |m.topProcesses| * PROCESS_LINE_BOUND + NameLengths(m.topProcesses)
  {
    hide ProcessLine, Built, TotalLength, NameLengths;
    ProcessLinesLength(m, |m.topProcesses|);
    assert ProcessLines(m)[..|m.topProcesses|] == ProcessLines(m);
    assert m.topProcesses[..|m.topProcesses|] == m.topProcesses;
  }

  lemma SnapshotLength(m: SystemMetrics)
    ensures |Unlines(SnapshotLines(m))| == 11 + TotalLength(FieldLines(m)) + TotalLength(ProcessLines(m))
  {
    hide FieldLines, ProcessLines, TotalLength, Unlines;
    VersionLength();
    TotalLengthAppend([PROTOCOL_VERSION] + FieldLines(m), ProcessLines(m));
    TotalLengthAppend([PROTOCOL_VERSION], FieldLines(m));
    UnlinesLength(SnapshotLines(m));
  }

  // ---------------------------------------------------------------------------
  // Text as bytes
  // ---------------------------------------------------------------------------

  predicate OctetText(s: string) {
    forall i :: 0 <= i < |s| ==> s[i] < 256 as char
  }

  function Octets(s: string): (bytes: Bytes)
    requires OctetText(s)
    ensures |bytes| == |s|
  {
    seq(|s|, i requires 0 <= i < |s| => s[i] as byte)
  }

  function FromOctets(bytes: Bytes): (s: string)
    ensures |s| == |bytes|
  {
    seq(|bytes|, i requires 0 <= i < |bytes| => bytes[i] as char)
  }

  lemma OctetsRoundTrip(s: string)
    requires OctetText(s)
    ensures FromOctets(Octets(s)) == s
  {
  }

  function PrintSnapshot(m: SystemMetrics): string {
    Unlines(SnapshotLines(m))
  }

  /** A snapshot an agent can send: what `buildMetrics` produces, with names of bytes that leave room
      for the rest. Nothing else is asked of the names. */
  ghost predicate Sendable(m: SystemMetrics) {
    && Built(m)
    && OctetText(PrintSnapshot(m))
    && TextLength(m) <= MAX_FRAME_SIZE - FIXED_BOUND
  }

  /** `encode` never refuses such a snapshot. */
  lemma SnapshotFits(m: SystemMetrics)
    requires Sendable(m)
    ensures Fits(Octets(PrintSnapshot(m)))
  {
    hide OctetText, SnapshotLines, Unlines, TextLength, Built;
    SerializedLength(m);
  }

  // ---------------------------------------------------------------------------
  // From agent to server
  // ---------------------------------------------------------------------------

  /** The payloads of a run of the monitoring loop are printed snapshots. */
  ghost predicate SendsSnapshots(ticks: seq<Agent.TickInput>, snapshots: seq<SystemMetrics>) {
    && |ticks| == |snapshots|
    && forall i :: 0 <= i < |ticks| ==>
         Sendable(snapshots[i]) && ticks[i].payload == Octets(PrintSnapshot(snapshots[i]))
  }

  lemma {:induction false} SamplesAreSnapshots(now: int, ticks: seq<Agent.TickInput>, snapshots: seq<SystemMetrics>)
    requires SendsSnapshots(ticks, snapshots)
    ensures var s := Agent.Run(Agent.Start(now), ticks);
            && !s.stopped && |s.samples| == |snapshots|
            && forall i :: 0 <= i < |snapshots| ==>
                 Sendable(snapshots[i]) && s.samples[i] == Octets(PrintSnapshot(snapshots[i]))
  {
    hide Sendable, Agent.Reconnect, Octets, PrintSnapshot;
    if ticks != [] {
      var n := |ticks| - 1;
      SamplesAreSnapshots(now, ticks[..n], snapshots[..n]);
      var s := Agent.Run(Agent.Start(now), ticks[..n]);
      SnapshotFits(snapshots[n]);
      TickAppendsSample(s, ticks[n]);
    }
  }

  lemma TickAppendsSample(s: Agent.AgentState, t: Agent.TickInput)
    requires !s.stopped && Fits(t.payload)
    ensures !Agent.Tick(s, t).stopped && Agent.Tick(s, t).samples == s.samples + [t.payload]
  {
  }

  /** Whatever the network does to the connections of an agent, each message the server delivers
      from one of them is the text of the snapshot taken at the tick whose `sendAll` it completed,
      and the parser makes of it the rounded form of that snapshot exactly if it is printable. */
  lemma DeliveredSnapshotsParse(
    lib: NumberLibrary, now: int, ticks: seq<Agent.TickInput>, snapshots: seq<SystemMetrics>,
    i: nat, chunks: seq<Bytes>, k: nat)
    requires ReadsPrintedNumbers(lib) && SendsSnapshots(ticks, snapshots)
    requires i < |Agent.Run(Agent.Start(now), ticks).links|
    requires Connection.Concat(chunks) <= Agent.Run(Agent.Start(now), ticks).links[i].wire
    requires k < |Connection.AbsorbAll(Parsed([], []), chunks).messages|
    ensures var completed := Agent.Run(Agent.Start(now), ticks).links[i].completed;
            var message := Connection.AbsorbAll(Parsed([], []), chunks).messages[k];
            && k < |completed| && completed[k] < |snapshots|
            && FromOctets(message) == PrintSnapshot(snapshots[completed[k]])
            && (Interpret(lib, FromOctets(message)) == Success(RoundedMetrics(snapshots[completed[k]]))
                <==> Printable(snapshots[completed[k]]))
  {
    hide Agent.Run, Agent.LinkOk, Connection.AbsorbAll, Connection.Concat, Interpret, Octets, FromOctets,
         SendsSnapshots, OctetText, FiniteNumbers, Printable, ReadsPrintedNumbers, Unlines, SnapshotLines,
         RoundedMetrics;
    Agent.EndToEnd(now, ticks, i, chunks);
    SamplesAreSnapshots(now, ticks, snapshots);
    var s := Agent.Run(Agent.Start(now), ticks);
    var sample := s.links[i].completed[k];
    var message := Connection.AbsorbAll(Parsed([], []), chunks).messages[k];
    assert message == s.samples[sample] == Octets(PrintSnapshot(snapshots[sample]));
    OctetsRoundTrip(PrintSnapshot(snapshots[sample]));
    RoundTripExactly(lib, snapshots[sample]);
  }
}
