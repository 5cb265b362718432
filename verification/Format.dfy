/** The text format spelled out: the lines a snapshot is printed as, which lines and values are
    accepted, and what an accepted or printable snapshot is. */
module Format {
  import opened Wrappers
  import opened Decimal
  import opened Metrics
  import opened Serializer
  import opened Deserializer
  import opened Acceptance
  import opened RoundTrip
  import opened Printability

  // ---------------------------------------------------------------------------
  // Printed lines
  // ---------------------------------------------------------------------------

  /** The line printed for a name and a value. */
  predicate LineIs(m: SystemMetrics, i: nat, name: string, value: string) {
    i < |SnapshotLines(m)| && SnapshotLines(m)[i] == name + "=" + value
  }

  lemma LineOfField(m: SystemMetrics, f: Field)
    ensures LineIs(m, 1 + Position(f), Name(f), PrintValue(ValueOf(m, f)))
  {
    hide Name, PrintValue, ValueOf, ProcessLine;
    assert FieldLines(m)[Position(f)] == FieldLine(m, f);
  }

  /** The version comes first. */
  lemma PrintedVersion(m: SystemMetrics)
    ensures |SnapshotLines(m)| == 22 + |m.topProcesses| && SnapshotLines(m)[0] == "LMONITOR/1"
  {
  }

  /** System, CPU and memory. */
  lemma PrintedHostAndMemory(m: SystemMetrics)
    ensures LineIs(m, 1, "hostname", m.hostname)
    ensures LineIs(m, 2, "uptime_seconds", PrintNat(m.uptimeSeconds))
    ensures LineIs(m, 3, "logical_cpus", PrintNat(m.logicalCpuCount))
    ensures LineIs(m, 4, "cpu_usage_percent", PrintDouble(m.cpuUsagePercent))
    ensures LineIs(m, 5, "memory_total_kb", PrintNat(m.memoryTotalKB))
    ensures LineIs(m, 6, "memory_used_kb", PrintNat(m.memoryUsedKB))
    ensures LineIs(m, 7, "memory_available_kb", PrintNat(m.memoryAvailableKB))
    ensures LineIs(m, 8, "memory_usage_percent", PrintDouble(m.memoryUsagePercent))
  {
    hide LineIs, PrintNat, PrintDouble;
    LineOfField(m, Hostname);
    LineOfField(m, UptimeSeconds);
    LineOfField(m, LogicalCpus);
    LineOfField(m, CpuUsagePercent);
    LineOfField(m, MemoryTotalKB);
    LineOfField(m, MemoryUsedKB);
    LineOfField(m, MemoryAvailableKB);
    LineOfField(m, MemoryUsagePercent);
  }

  /** Load and disk. */
  lemma PrintedLoadAndDisk(m: SystemMetrics)
    ensures LineIs(m, 9, "load_1", PrintDouble(m.load1))
    ensures LineIs(m, 10, "load_5", PrintDouble(m.load5))
    ensures LineIs(m, 11, "load_15", PrintDouble(m.load15))
    ensures LineIs(m, 12, "disk_mount", m.diskMountPoint)
    ensures LineIs(m, 13, "disk_total_bytes", PrintNat(m.diskTotalBytes))
    ensures LineIs(m, 14, "disk_used_bytes", PrintNat(m.diskUsedBytes))
    ensures LineIs(m, 15, "disk_available_bytes", PrintNat(m.diskAvailableBytes))
    ensures LineIs(m, 16, "disk_usage_percent", PrintDouble(m.diskUsagePercent))
  {
    hide LineIs, PrintNat, PrintDouble;
    LineOfField(m, Load1);
    LineOfField(m, Load5);
    LineOfField(m, Load15);
    LineOfField(m, DiskMount);
    LineOfField(m, DiskTotalBytes);
    LineOfField(m, DiskUsedBytes);
    LineOfField(m, DiskAvailableBytes);
    LineOfField(m, DiskUsagePercent);
  }

  /** Network, sampling and the number of processes. */
  lemma PrintedNetworkAndCount(m: SystemMetrics)
    ensures LineIs(m, 17, "network_interface", m.networkInterface)
    ensures LineIs(m, 18, "network_rx_bytes_per_second", PrintDouble(m.networkRxBytesPerSecond))
    ensures LineIs(m, 19, "network_tx_bytes_per_second", PrintDouble(m.networkTxBytesPerSecond))
    ensures LineIs(m, 20, "sample_interval_seconds", PrintDouble(m.sampleIntervalSeconds))
    ensures LineIs(m, 21, "process_count", PrintNat(|m.topProcesses|))
  {
    hide LineIs, PrintNat, PrintDouble;
    LineOfField(m, NetworkInterface);
    LineOfField(m, NetworkRxBytesPerSecond);
    LineOfField(m, NetworkTxBytesPerSecond);
    LineOfField(m, SampleIntervalSeconds);
    LineOfField(m, ProcessCount);
  }

  /** Then one line for each process, in order. */
  lemma PrintedProcessLine(m: SystemMetrics, i: nat)
    requires i < |m.topProcesses|
    ensures var p := m.topProcesses[i];
            && 22 + i < |SnapshotLines(m)|
            && SnapshotLines(m)[22 + i]
               == "process=" + (PrintInt(p.pid) + "," + PrintDouble(p.cpuUsagePercent) + ","
                                + PrintDouble(p.memoryUsagePercent) + "," + PrintNat(p.residentMemoryKB) + "," + p.name)
  {
    hide FieldLine, PrintInt, PrintDouble, PrintNat;
    assert ProcessLines(m)[i] == ProcessLine(m.topProcesses[i]);
  }

  // ---------------------------------------------------------------------------
  // Lines and records
  // ---------------------------------------------------------------------------

  /** The payload is what the lines make when each is ended by a line feed; the last may lack it, if it is
      not empty. */
  predicate AreLinesOf(lines: seq<string>, payload: string) {
    || payload == Unlines(lines)
    || (lines != [] && lines[|lines| - 1] != "" && payload + "\n" == Unlines(lines))
  }

  lemma LineBefore(line: string, lines: seq<string>, rest: string)
    requires AreLinesOf(lines, rest)
    ensures AreLinesOf([line] + lines, line + "\n" + rest)
  {
    hide Unlines;
    UnlinesHead(line, lines);
    var all, text := [line] + lines, line + "\n" + rest;
    if rest != Unlines(lines) {
      assert all[|all| - 1] == lines[|lines| - 1];
      assert text + "\n" == line + "\n" + (rest + "\n");
    }
  }

  lemma NothingHasNoLines()
    ensures AreLinesOf([], "")
  {
  }

  lemma LastLine(line: string)
    requires line != ""
    ensures AreLinesOf([line], line)
  {
    UnlinesHead(line, []);
    assert [line] + [] == [line];
  }

  /** The lines of a payload are what it consists of, and hold no line feed. */
  lemma {:induction false} PayloadIsItsLines(payload: string)
    ensures NoLineFeed(SplitLines(payload)) && AreLinesOf(SplitLines(payload), payload)
    decreases |payload|
  {
    LinesHaveNoLineFeed(payload);
    hide NoLineFeed, IndexOf, AreLinesOf;
    var i := IndexOf(payload, '\n');
    if payload == "" {
      NothingHasNoLines();
    } else if i == |payload| {
      LastLine(payload);
    } else {
      var line, rest := payload[..i], payload[i + 1..];
      PayloadIsItsLines(rest);
      LineBefore(line, SplitLines(rest), rest);
      assert payload == line + "\n" + rest;
    }
  }

  /** One carriage return is dropped from the end of a line, and nothing else. */
  lemma OneCrIsDropped(line: string)
    ensures StripCr(line + "\r") == line
    ensures line == "" || line[|line| - 1] != '\r' ==> StripCr(line) == line
  {
  }

  /** What a line without its carriage return is: blank if empty; malformed if it has no equals sign;
      nameless if it starts with one; and otherwise a key and a value, cut at the first equals sign. */
  lemma RecordExactly(s: string, key: string, value: string)
    ensures ClassifyStripped(s).Blank? <==> s == ""
    ensures ClassifyStripped(s) == Bad(MalformedLine(s)) <==> s != "" && '=' !in s
    ensures ClassifyStripped(s) == Bad(EmptyFieldName) <==> s != "" && s[0] == '='
    ensures key != "" && '=' !in key && s == key + "=" + value ==>
              ClassifyStripped(s) == if key == "process" then ProcessRecord(value) else ScalarRecord(key, value)
  {
    if key != "" && '=' !in key && s == key + "=" + value {
      assert s[..|key|] == key && s[|key| + 1..] == value;
      IndexOfIs(s, '=', |key|);
    }
    hide IndexOf;
    var i := IndexOf(s, '=');
    assert i < |s| ==> s[i] in s;
    assert i == |s| ==> s[..i] == s;
    assert i > 0 ==> s[..i][0] == s[0];
  }

  // ---------------------------------------------------------------------------
  // Values
  // ---------------------------------------------------------------------------

  /** A number is accepted exactly if the library reads it to its end; what follows a number makes it
      invalid. */
  lemma CountExactly(lib: NumberLibrary, s: string, n: uint64)
    ensures ParseUint64(lib, s) == Some(n) <==> s != "" && lib.stoull(s) == Some(Prefix(n, |s|))
  {
  }

  /** An integer must fit 32 bits as well. */
  lemma IntegerExactly(lib: NumberLibrary, s: string, n: int32)
    ensures ParseInt(lib, s) == Some(n) <==> s != "" && lib.stoll(s) == Some(Prefix(n, |s|))
  {
  }

  /** A double must be finite as well. */
  lemma DoubleExactly(lib: NumberLibrary, s: string, d: Double)
    ensures ParseDouble(lib, s) == Some(d) <==> s != "" && lib.stod(s) == Some(Prefix(Finite(d), |s|))
  {
  }

  /** A process record is accepted exactly if it is an integer that is not negative, two doubles, a count
      and a name that is not empty, with commas between them; only the name may hold commas. */
  lemma ProcessExactly(lib: NumberLibrary, s: string, p: ProcessMetric)
    ensures ParseProcess(lib, s) == Some(p)
            <==> exists fields: seq<string> ::
                   && |fields| == 5 && NoCommaBeforeLast(fields) && JoinCommas(fields) == s
                   && ParseInt(lib, fields[0]) == Some(p.pid) && p.pid >= 0
                   && ParseDouble(lib, fields[1]) == Some(p.cpuUsagePercent)
                   && ParseDouble(lib, fields[2]) == Some(p.memoryUsagePercent)
                   && ParseUint64(lib, fields[3]) == Some(p.residentMemoryKB)
                   && fields[4] == p.name && p.name != ""
  {
    hide SplitCommas, JoinCommas, NoCommaBeforeLast, ParseInt, ParseDouble, ParseUint64;
    if ParseProcess(lib, s) == Some(p) {
      SplitUndoesJoin(s, 4, SplitCommas(s, 4).value);
    }
    forall fields: seq<string> | |fields| == 5 && NoCommaBeforeLast(fields) && JoinCommas(fields) == s
      ensures SplitCommas(s, 4) == Some(fields)
    {
      SplitUndoesJoin(s, 4, fields);
    }
  }

  // ---------------------------------------------------------------------------
  // Accepted and printable snapshots
  // ---------------------------------------------------------------------------

  lemma PayloadAccepts(lib: NumberLibrary, payload: string, m: SystemMetrics)
    requires Interpret(lib, payload) == Success(m)
    ensures SplitLines(payload) != [] && Accepts(lib, ClassifyAll(SplitLines(payload)[1..]), m)
  {
    hide Interpret, SplitLines, Describes, TextHasNoLineFeed;
    Accepted(lib, payload, m);
    var records := ClassifyAll(SplitLines(payload)[1..]);
    forall r <- records
      ensures TextHasNoLineFeed(r)
    {
      RecordsOfPayload(payload, r);
    }
  }

  lemma AcceptedTexts(lib: NumberLibrary, records: seq<Record>, m: SystemMetrics)
    requires Accepts(lib, records, m)
    ensures m.hostname != "" && m.diskMountPoint != "" && m.networkInterface != ""
  {
    hide Accepts;
    AcceptedField(lib, records, m, Hostname);
    AcceptedField(lib, records, m, DiskMount);
    AcceptedField(lib, records, m, NetworkInterface);
  }

  lemma AcceptedNumbers(lib: NumberLibrary, records: seq<Record>, m: SystemMetrics)
    requires Accepts(lib, records, m)
    ensures m.logicalCpuCount > 0
    ensures !m.sampleIntervalSeconds.negative && m.sampleIntervalSeconds.magnitude > 0.0
  {
    hide Accepts;
    AcceptedField(lib, records, m, LogicalCpus);
    AcceptedField(lib, records, m, SampleIntervalSeconds);
  }

  /** An accepted snapshot has a host, a mount and an interface name, at least one CPU, a positive
      interval, and processes with a pid that is not negative and a name. */
  lemma AcceptedIsValid(lib: NumberLibrary, payload: string, m: SystemMetrics)
    requires Interpret(lib, payload) == Success(m)
    ensures m.hostname != "" && m.diskMountPoint != "" && m.networkInterface != "" && m.logicalCpuCount > 0
    ensures !m.sampleIntervalSeconds.negative && m.sampleIntervalSeconds.magnitude > 0.0
    ensures forall p <- m.topProcesses :: p.pid >= 0 && p.name != ""
  {
    PayloadAccepts(lib, payload, m);
    var records := ClassifyAll(SplitLines(payload)[1..]);
    hide Interpret, Accepts, SplitLines, ParseProcess, ClassifyAll;
    AcceptedTexts(lib, records, m);
    AcceptedNumbers(lib, records, m);
    forall p <- m.topProcesses
      ensures p.pid >= 0 && p.name != ""
    {
      var i :| 0 <= i < |m.topProcesses| && m.topProcesses[i] == p;
      AcceptedProcess(lib, records, m, i);
      ParsedProcess(lib, ProcessTexts(records)[i], p);
    }
  }

  /** The keys of version 1, `process` aside. */
  const KEYS := {
    "hostname", "uptime_seconds", "logical_cpus", "cpu_usage_percent",
    "memory_total_kb", "memory_used_kb", "memory_available_kb", "memory_usage_percent",
    "load_1", "load_5", "load_15",
    "disk_mount", "disk_total_bytes", "disk_used_bytes", "disk_available_bytes", "disk_usage_percent",
    "network_interface", "network_rx_bytes_per_second", "network_tx_bytes_per_second",
    "sample_interval_seconds", "process_count"}

  lemma NamesAreTheKeys(f: Field)
    ensures Name(f) in KEYS
  {
  }

  /** In an accepted payload every line after the version is blank, a process record, or one of the keys
      with a value. */
  lemma AcceptedLine(lib: NumberLibrary, payload: string, m: SystemMetrics, line: string)
    requires Interpret(lib, payload) == Success(m)
    requires SplitLines(payload) != [] && line in SplitLines(payload)[1..]
    ensures var r := Classify(line);
            r.Blank? || r.ProcessRecord? || (r.ScalarRecord? && r.key in KEYS)
  {
    Accepted(lib, payload, m);
    hide Interpret, SplitLines, Classify, ParseField, ParseProcess, FieldNamed;
    var lines := SplitLines(payload)[1..];
    var i :| 0 <= i < |lines| && lines[i] == line;
    var r := ClassifyAll(lines)[i];
    assert ValidRecord(lib, r);
    if r.ScalarRecord? {
      NamesAreTheKeys(FieldNamed(r.key).value);
    }
  }

  /** Printable, field by field. */
  lemma PrintableMeans(m: SystemMetrics)
    ensures Printable(m)
            <==> && LineSafe(m.hostname) && LineSafe(m.diskMountPoint) && LineSafe(m.networkInterface)
                 && m.logicalCpuCount > 0 && |m.topProcesses| < 0x1_0000_0000_0000_0000
                 && FiniteNumbers(m)
                 && !m.sampleIntervalSeconds.negative && Hundredths(m.sampleIntervalSeconds) > 0
                 && forall p <- m.topProcesses :: LineSafe(p.name) && p.pid >= 0
  {
    hide LineSafe, Double.Finite, Hundredths;
    if Printable(m) {
      assert PrintableField(m, Hostname) && PrintableField(m, DiskMount) && PrintableField(m, NetworkInterface);
      assert PrintableField(m, LogicalCpus) && PrintableField(m, ProcessCount);
      assert PrintableField(m, SampleIntervalSeconds);
      forall f: Field
        ensures FiniteField(m, f)
      {
        assert PrintableField(m, f);
      }
    }
    if && LineSafe(m.hostname) && LineSafe(m.diskMountPoint) && LineSafe(m.networkInterface)
       && m.logicalCpuCount > 0 && |m.topProcesses| < 0x1_0000_0000_0000_0000
       && FiniteNumbers(m) && !m.sampleIntervalSeconds.negative && Hundredths(m.sampleIntervalSeconds) > 0 {
      forall f: Field
        ensures PrintableField(m, f)
      {
        assert FiniteField(m, f);
      }
    }
  }

  /** Fit for a line of its own: not empty, no line feed, no carriage return at the end. */
  lemma LineSafeMeans(s: string)
    ensures LineSafe(s) <==> s != "" && '\n' !in s && s[|s| - 1] != '\r'
  {
  }
}
