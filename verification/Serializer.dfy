/** The printer of src/serializer/MetricsSerializer.cpp: one line per field in a fixed order,
    then one line per process. */
module Serializer {
  import opened Decimal
  import opened Metrics

  const PROTOCOL_VERSION := "LMONITOR/1"

  function PrintValue(v: Value): string {
    match v
    case TextValue(text) => text
    case CountValue(count) => PrintNat(count)
    case NumberValue(number) => PrintDouble(number)
  }

  function FieldLine(m: SystemMetrics, f: Field): string {
    Name(f) + "=" + PrintValue(ValueOf(m, f))
  }

  function PrintProcess(p: ProcessMetric): string {
    PrintInt(p.pid) + "," + PrintDouble(p.cpuUsagePercent) + "," + PrintDouble(p.memoryUsagePercent) + ","
    + PrintNat(p.residentMemoryKB) + "," + p.name
  }

  function ProcessLine(p: ProcessMetric): string {
    "process=" + PrintProcess(p)
  }

  /** The lines of the printed snapshot. */
  function SnapshotLines(m: SystemMetrics): seq<string> {
    [PROTOCOL_VERSION] + FieldLines(m) + ProcessLines(m)
  }

  function FieldLines(m: SystemMetrics): (lines: seq<string>)
    ensures |lines| == |FIELDS|
  {
    seq(|FIELDS|, i requires 0 <= i < |FIELDS| => FieldLine(m, FIELDS[i]))
  }

  function ProcessLines(m: SystemMetrics): (lines: seq<string>)
    ensures |lines| == |m.topProcesses|
  {
    seq(|m.topProcesses|, i requires 0 <= i < |m.topProcesses| => ProcessLine(m.topProcesses[i]))
  }

  /** Every line followed by a line feed. */
  function Unlines(lines: seq<string>): string {
    if lines == [] then "" else Unlines(lines[..|lines| - 1]) + lines[|lines| - 1] + "\n"
  }

  lemma UnlinesOneMore(lines: seq<string>, i: nat)
    requires i < |lines|
    ensures Unlines(lines[..i + 1]) == Unlines(lines[..i]) + lines[i] + "\n"
  {
    assert lines[..i + 1][..i] == lines[..i];
  }

  lemma UnlinesHead(head: string, lines: seq<string>)
    ensures Unlines([head] + lines) == head + "\n" + Unlines(lines)
    decreases lines
  {
    var all := [head] + lines;
    if lines == [] {
      assert all[..0] == [];
      assert Unlines(all) == Unlines([]) + head + "\n";
    } else {
      UnlinesHead(head, lines[..|lines| - 1]);
      assert all[..|all| - 1] == [head] + lines[..|lines| - 1];
      calc {
        Unlines(all);
        (head + "\n" + Unlines(lines[..|lines| - 1])) + lines[|lines| - 1] + "\n";
        head + "\n" + (Unlines(lines[..|lines| - 1]) + lines[|lines| - 1] + "\n");
        head + "\n" + Unlines(lines);
      }
    }
  }

  /** The text of the version and of the first k fields. */
  function PrintedUpTo(m: SystemMetrics, k: nat): string
    requires k <= |FIELDS|
  {
    Unlines([PROTOCOL_VERSION] + FieldLines(m)[..k])
  }

  /** Appends one `name=value` line, which has to be the next field of m. */
  method PutField(text: string, ghost m: SystemMetrics, f: Field, value: string) returns (output: string)
    requires value == PrintValue(ValueOf(m, f))
    requires text == PrintedUpTo(m, Position(f))
    ensures output == PrintedUpTo(m, Position(f) + 1)
  {
    hide Unlines, FieldLines, PrintValue, Position, Name;
    output := text + Name(f) + "=" + value + "\n";
    ghost var before := [PROTOCOL_VERSION] + FieldLines(m)[..Position(f)];
    ghost var line := Name(f) + "=" + value;
    FieldLinesOneMore(m, f);
    UnlinesLast(before, line);
    JoinLine(text, Name(f), value);
  }

  lemma JoinLine(text: string, name: string, value: string)
    ensures text + name + "=" + value + "\n" == text + (name + "=" + value) + "\n"
  {
  }

  lemma FieldLinesOneMore(m: SystemMetrics, f: Field)
    ensures [PROTOCOL_VERSION] + FieldLines(m)[..Position(f) + 1]
            == [PROTOCOL_VERSION] + FieldLines(m)[..Position(f)] + [FieldLine(m, f)]
  {
    hide FieldLine;
    var lines, i := FieldLines(m), Position(f);
    assert lines[i] == FieldLine(m, f);
    hide FieldLines, Position;
    assert lines[..i + 1] == lines[..i] + [lines[i]];
  }

  lemma UnlinesLast(lines: seq<string>, line: string)
    ensures Unlines(lines + [line]) == Unlines(lines) + line + "\n"
  {
    assert (lines + [line])[..|lines|] == lines;
  }

  lemma UnlinesVersion(m: SystemMetrics)
    ensures PrintedUpTo(m, 0) == PROTOCOL_VERSION + "\n"
  {
    UnlinesHead(PROTOCOL_VERSION, []);
    assert Unlines([]) == "";
    assert [PROTOCOL_VERSION] + FieldLines(m)[..0] == [PROTOCOL_VERSION] + [];
  }

  /** Version, system and CPU. */
  method PrintHostFields(m: SystemMetrics) returns (output: string)
    ensures output == PrintedUpTo(m, Position(MemoryTotalKB))
  {
    hide PrintedUpTo, PrintNat, PrintDouble, Name;
    output := PROTOCOL_VERSION + "\n";
    UnlinesVersion(m);
    output := PutField(output, m, Hostname, m.hostname);
    output := PutField(output, m, UptimeSeconds, PrintNat(m.uptimeSeconds));
    output := PutField(output, m, LogicalCpus, PrintNat(m.logicalCpuCount));
    output := PutField(output, m, CpuUsagePercent, PrintDouble(m.cpuUsagePercent));
  }

  /** Memory and load. */
  method PrintMemoryFields(text: string, m: SystemMetrics) returns (output: string)
    requires text == PrintedUpTo(m, Position(MemoryTotalKB))
    ensures output == PrintedUpTo(m, Position(DiskMount))
  {
    hide PrintedUpTo, PrintNat, PrintDouble, Name;
    output := text;
    output := PutField(output, m, MemoryTotalKB, PrintNat(m.memoryTotalKB));
    output := PutField(output, m, MemoryUsedKB, PrintNat(m.memoryUsedKB));
    output := PutField(output, m, MemoryAvailableKB, PrintNat(m.memoryAvailableKB));
    output := PutField(output, m, MemoryUsagePercent, PrintDouble(m.memoryUsagePercent));
    output := PutField(output, m, Load1, PrintDouble(m.load1));
    output := PutField(output, m, Load5, PrintDouble(m.load5));
    output := PutField(output, m, Load15, PrintDouble(m.load15));
  }

  /** Disk. */
  method PrintDiskFields(text: string, m: SystemMetrics) returns (output: string)
    requires text == PrintedUpTo(m, Position(DiskMount))
    ensures output == PrintedUpTo(m, Position(NetworkInterface))
  {
    hide PrintedUpTo, PrintNat, PrintDouble, Name;
    output := text;
    output := PutField(output, m, DiskMount, m.diskMountPoint);
    output := PutField(output, m, DiskTotalBytes, PrintNat(m.diskTotalBytes));
    output := PutField(output, m, DiskUsedBytes, PrintNat(m.diskUsedBytes));
    output := PutField(output, m, DiskAvailableBytes, PrintNat(m.diskAvailableBytes));
    output := PutField(output, m, DiskUsagePercent, PrintDouble(m.diskUsagePercent));
  }

  /** Network, sampling and the number of processes. */
  method PrintNetworkFields(text: string, m: SystemMetrics) returns (output: string)
    requires text == PrintedUpTo(m, Position(NetworkInterface))
    ensures output == PrintedUpTo(m, Position(ProcessCount) + 1)
  {
    hide PrintedUpTo, PrintNat, PrintDouble, Name;
    output := text;
    output := PutField(output, m, NetworkInterface, m.networkInterface);
    output := PutField(output, m, NetworkRxBytesPerSecond, PrintDouble(m.networkRxBytesPerSecond));
    output := PutField(output, m, NetworkTxBytesPerSecond, PrintDouble(m.networkTxBytesPerSecond));
    output := PutField(output, m, SampleIntervalSeconds, PrintDouble(m.sampleIntervalSeconds));
    output := PutField(output, m, ProcessCount, PrintNat(|m.topProcesses|));
  }

  lemma SnapshotLinesAre(m: SystemMetrics)
    ensures var lines := SnapshotLines(m);
            && |lines| == 1 + |FIELDS| + |m.topProcesses|
            && PrintedUpTo(m, Position(ProcessCount) + 1) == Unlines(lines[..1 + |FIELDS|])
            && forall i :: 0 <= i < |m.topProcesses| ==> lines[1 + |FIELDS| + i] == ProcessLine(m.topProcesses[i])
  {
    hide Unlines, ProcessLine, FieldLine;
    assert SnapshotLines(m)[..1 + |FIELDS|] == [PROTOCOL_VERSION] + FieldLines(m)[..Position(ProcessCount) + 1];
  }

  /** `MetricsSerializer::serialize`. */
  method Serialize(m: SystemMetrics) returns (output: string)
    ensures output == Unlines(SnapshotLines(m))
  {
    output := PrintHostFields(m);
    output := PrintMemoryFields(output, m);
    output := PrintDiskFields(output, m);
    output := PrintNetworkFields(output, m);
    ghost var lines := SnapshotLines(m);
    SnapshotLinesAre(m);
    hide SnapshotLines, PrintedUpTo, Unlines, PrintInt, PrintNat, PrintDouble;
    for i := 0 to |m.topProcesses|
      invariant output == Unlines(lines[..1 + |FIELDS| + i])
    {
      hide Unlines, SnapshotLines, PrintedUpTo, PrintInt, PrintNat, PrintDouble;
      var process := m.topProcesses[i];
      var record := PrintInt(process.pid) + "," + PrintDouble(process.cpuUsagePercent) + ","
        + PrintDouble(process.memoryUsagePercent) + "," + PrintNat(process.residentMemoryKB) + "," + process.name;
      output := output + ("process=" + record) + "\n";
      UnlinesOneMore(lines, 1 + |FIELDS| + i);
    }
    assert lines[..|lines|] == lines;
  }
}
