/** The strict parser of src/serializer/MetricsDeserializer.cpp: a version line, 21 scalar fields
    each given once, and as many `process` records as `process_count` announces. */
module Deserializer {
  import opened Wrappers
  import opened Decimal
  import opened Metrics
  import opened Serializer

  datatype Error =
    | EmptyPayload
    | UnsupportedVersion(line: string)
    | MalformedLine(line: string)
    | EmptyFieldName
    | InvalidProcess(record: string)
    | DuplicateField(key: string)
    | UnknownField(key: string)
    | InvalidValue(key: string)
    | MissingField
    | ProcessCountMismatch

  // ---------------------------------------------------------------------------
  // Numbers: the whole text must be consumed
  // ---------------------------------------------------------------------------

  function Whole<T>(r: Option<Prefix<T>>, length: nat): Option<T> {
    if r.Some? && r.value.length == length then Some(r.value.value) else None
  }

  function ParseUint64(lib: NumberLibrary, s: string): Option<uint64> {
    if s == "" then None else Whole(lib.stoull(s), |s|)
  }

  function ParseInt(lib: NumberLibrary, s: string): Option<int32> {
    if s == "" then None
    else
      var r := Whole(lib.stoll(s), |s|);
      if r.Some? && -INT32_LIMIT <= r.value < INT32_LIMIT then Some(r.value) else None
  }

  function ParseDouble(lib: NumberLibrary, s: string): Option<Double> {
    if s == "" then None
    else
      var r := Whole(lib.stod(s), |s|);
      if r.Some? && r.value.Finite? then Some(r.value.double) else None
  }

  // ---------------------------------------------------------------------------
  // Process records
  // ---------------------------------------------------------------------------

  /** Position of the first c in s, or |s|. */
  function IndexOf(s: string, c: char): (i: nat)
    ensures i <= |s| && c !in s[..i] && (i < |s| ==> s[i] == c)
  {
    if s == "" || s[0] == c then 0
    else
      var i := IndexOf(s[1..], c);
      assert s[..1 + i] == [s[0]] + s[1..][..i];
      1 + i
  }

  lemma IndexOfIs(s: string, c: char, i: nat)
    requires i <= |s| && c !in s[..i] && (i < |s| ==> s[i] == c)
    ensures IndexOf(s, c) == i
  {
    var j := IndexOf(s, c);
    assert forall k :: 0 <= k < i ==> s[k] == s[..i][k];
    assert forall k :: 0 <= k < j ==> s[k] == s[..j][k];
  }

  /** The text between the first n commas of s, then all that follows them. */
  function SplitCommas(s: string, n: nat): Option<seq<string>> {
    if n == 0 then Some([s])
    else
      var i := IndexOf(s, ',');
      if i == |s| then None
      else
        var rest := SplitCommas(s[i + 1..], n - 1);
        if rest.Some? then Some([s[..i]] + rest.value) else None
  }

  /** Joins with commas: the inverse of splitting. */
  function JoinCommas(fields: seq<string>): string
    requires fields != []
  {
    if |fields| == 1 then fields[0] else fields[0] + "," + JoinCommas(fields[1..])
  }

  ghost predicate NoCommaBeforeLast(fields: seq<string>) {
    forall i :: 0 <= i < |fields| - 1 ==> ',' !in fields[i]
  }

  lemma NoCommaCons(fields: seq<string>)
    requires |fields| > 1
    ensures NoCommaBeforeLast(fields) <==> ',' !in fields[0] && NoCommaBeforeLast(fields[1..])
  {
    assert fields == [fields[0]] + fields[1..];
  }

  lemma CutAtFirstComma(s: string, head: string, rest: string)
    ensures ',' !in head && s == head + "," + rest
            <==> var i := IndexOf(s, ','); i < |s| && head == s[..i] && rest == s[i + 1..]
  {
    hide IndexOf;
    var i := IndexOf(s, ',');
    if ',' !in head && s == head + "," + rest {
      assert s[..|head|] == head && s[|head| + 1..] == rest;
      IndexOfIs(s, ',', |head|);
    }
    if i < |s| && head == s[..i] && rest == s[i + 1..] {
      assert s == s[..i] + [s[i]] + s[i + 1..];
    }
  }

  lemma SplitCons(s: string, n: nat, fields: seq<string>)
    requires |fields| == n + 1 && n > 0
    ensures SplitCommas(s, n) == Some(fields)
            <==> var i := IndexOf(s, ',');
                 i < |s| && fields[0] == s[..i] && SplitCommas(s[i + 1..], n - 1) == Some(fields[1..])
  {
    var i := IndexOf(s, ',');
    if i < |s| {
      var rest := SplitCommas(s[i + 1..], n - 1);
      assert fields == [fields[0]] + fields[1..];
      assert rest.Some? ==> ([s[..i]] + rest.value)[1..] == rest.value;
    }
  }

  lemma JoinCut(s: string, fields: seq<string>)
    requires |fields| > 1
    ensures NoCommaBeforeLast(fields) && JoinCommas(fields) == s
            <==> var i := IndexOf(s, ',');
                 && i < |s| && fields[0] == s[..i]
                 && NoCommaBeforeLast(fields[1..]) && JoinCommas(fields[1..]) == s[i + 1..]
  {
    NoCommaCons(fields);
    CutAtFirstComma(s, fields[0], JoinCommas(fields[1..]));
    hide NoCommaBeforeLast, IndexOf;
  }

  /** Splitting at the first n commas is what undoes joining n + 1 fields of which only the last
      may hold a comma. */
  lemma {:induction false} SplitUndoesJoin(s: string, n: nat, fields: seq<string>)
    requires |fields| == n + 1
    ensures SplitCommas(s, n) == Some(fields) <==> NoCommaBeforeLast(fields) && JoinCommas(fields) == s
  {
    if n == 0 {
      assert fields == [fields[0]];
    } else {
      hide *;
      var i := IndexOf(s, ',');
      SplitCons(s, n, fields);
      JoinCut(s, fields);
      if i < |s| {
        SplitUndoesJoin(s[i + 1..], n - 1, fields[1..]);
      }
    }
  }

  function ParseProcess(lib: NumberLibrary, s: string): Option<ProcessMetric> {
    var fields := SplitCommas(s, 4);
    if fields.None? || |fields.value| != 5 then None
    else ReadProcess(lib, fields.value)
  }

  function ReadProcess(lib: NumberLibrary, fields: seq<string>): Option<ProcessMetric>
    requires |fields| == 5
  {
    var pid := ParseInt(lib, fields[0]);
    var cpu := ParseDouble(lib, fields[1]);
    var memory := ParseDouble(lib, fields[2]);
    var resident := ParseUint64(lib, fields[3]);
    if pid.None? || pid.value < 0 || cpu.None? || memory.None? || resident.None? || fields[4] == "" then None
    else Some(ProcessMetric(pid.value, fields[4], cpu.value, memory.value, resident.value))
  }

  /** The splitting loop: four searches for a comma, the rest of the text being the last field. */
  method SplitProcessRecord(value: string) returns (r: Option<seq<string>>)
    ensures r == SplitCommas(value, 4)
  {
    hide SplitCommas, Prepend, IndexOf;
    var fields: seq<string> := [];
    var fieldStart := 0;
    assert value[0..] == value;
    PrependNothing(SplitCommas(value, 4));
    for i := 0 to 4
      invariant 0 <= fieldStart <= |value| && |fields| == i
      invariant SplitCommas(value, 4) == Prepend(fields, SplitCommas(value[fieldStart..], 4 - i))
    {
      ghost var rest := value[fieldStart..];
      var comma := IndexOf(value[fieldStart..], ',');
      SplitStep(fields, rest, 4 - i);
      if comma == |value| - fieldStart {
        return None;
      }
      assert rest[..comma] == value[fieldStart..fieldStart + comma];
      assert rest[comma + 1..] == value[fieldStart + comma + 1..];
      fields := fields + [value[fieldStart..fieldStart + comma]];
      fieldStart := fieldStart + comma + 1;
    }
    SplitDone(fields, value[fieldStart..]);
    return Some(fields + [value[fieldStart..]]);
  }

  /** `parseProcess`. */
  method ParseProcessRecord(lib: NumberLibrary, value: string) returns (r: Option<ProcessMetric>)
    ensures r == ParseProcess(lib, value)
  {
    var split := SplitProcessRecord(value);
    if split.None? || |split.value| != 5 {
      return None;
    }
    var fields := split.value;
    var pid := ParseInt(lib, fields[0]);
    if pid.None? || pid.value < 0 {
      return None;
    }
    var cpu := ParseDouble(lib, fields[1]);
    if cpu.None? {
      return None;
    }
    var memory := ParseDouble(lib, fields[2]);
    if memory.None? {
      return None;
    }
    var resident := ParseUint64(lib, fields[3]);
    if resident.None? || fields[4] == "" {
      return None;
    }
    return Some(ProcessMetric(pid.value, fields[4], cpu.value, memory.value, resident.value));
  }

  ghost function Prepend(head: seq<string>, tail: Option<seq<string>>): Option<seq<string>> {
    if tail.Some? then Some(head + tail.value) else None
  }

  lemma PrependNothing(tail: Option<seq<string>>)
    ensures Prepend([], tail) == tail
  {
    if tail.Some? {
      assert [] + tail.value == tail.value;
    }
  }

  lemma SplitDone(fields: seq<string>, rest: string)
    ensures Prepend(fields, SplitCommas(rest, 0)) == Some(fields + [rest])
  {
  }

  lemma SplitStep(fields: seq<string>, rest: string, n: nat)
    requires n > 0
    ensures var i := IndexOf(rest, ',');
            Prepend(fields, SplitCommas(rest, n))
            == if i == |rest| then None else Prepend(fields + [rest[..i]], SplitCommas(rest[i + 1..], n - 1))
  {
    var i := IndexOf(rest, ',');
    if i < |rest| {
      var tail := SplitCommas(rest[i + 1..], n - 1);
      if tail.Some? {
        assert fields + ([rest[..i]] + tail.value) == fields + [rest[..i]] + tail.value;
      }
    }
  }

  // ---------------------------------------------------------------------------
  // Lines
  // ---------------------------------------------------------------------------

  /** `getline` until the stream is exhausted: a final line feed ends the last line. */
  function SplitLines(payload: string): (lines: seq<string>)
    decreases |payload|
  {
    if payload == "" then []
    else
      var i := IndexOf(payload, '\n');
      if i == |payload| then [payload] else [payload[..i]] + SplitLines(payload[i + 1..])
  }

  function StripCr(line: string): string {
    if line != "" && line[|line| - 1] == '\r' then line[..|line| - 1] else line
  }

  /** What one line says before any value is read. */
  datatype Record = Blank | Bad(error: Error) | ProcessRecord(text: string) | ScalarRecord(key: string, text: string)

  function Classify(line: string): Record {
    ClassifyStripped(StripCr(line))
  }

  function ClassifyStripped(s: string): Record {
    var i := IndexOf(s, '=');
    if s == "" then Blank
    else if i == |s| then Bad(MalformedLine(s))
    else if i == 0 then Bad(EmptyFieldName)
    else if s[..i] == "process" then ProcessRecord(s[i + 1..])
    else ScalarRecord(s[..i], s[i + 1..])
  }

  function ClassifyAll(lines: seq<string>): (records: seq<Record>)
    ensures |records| == |lines|
  {
    seq(|lines|, i requires 0 <= i < |lines| => Classify(lines[i]))
  }

  function ParseField(lib: NumberLibrary, f: Field, text: string): (v: Option<Value>)
    ensures v.Some? ==> HasKind(KindOf(f), v.value)
  {
    match KindOf(f)
    case NonEmptyText =>
      if text == "" then None else Some(TextValue(text))
    case Count =>
      var n := ParseUint64(lib, text);
      if n.Some? then Some(CountValue(n.value)) else None
    case PositiveCount =>
      var n := ParseUint64(lib, text);
      if n.Some? && n.value != 0 then Some(CountValue(n.value)) else None
    case Number =>
      var d := ParseDouble(lib, text);
      if d.Some? then Some(NumberValue(d.value)) else None
    case PositiveNumber =>
      var d := ParseDouble(lib, text);
      if d.Some? && d.value.Positive() then Some(NumberValue(d.value)) else None
  }

  // ---------------------------------------------------------------------------
  // The parse as a fold over records
  // ---------------------------------------------------------------------------

  function Step(lib: NumberLibrary, p: Progress, r: Record): Result<Progress, Error> {
    match r
    case Blank => Success(p)
    case Bad(error) => Failure(error)
    case ProcessRecord(text) =>
      var process := ParseProcess(lib, text);
      if process.None? then Failure(InvalidProcess(text))
      else Success(p.(processes := p.processes + [process.value]))
    case ScalarRecord(key, text) =>
      var f := FieldNamed(key);
      if f.None? then Failure(UnknownField(key))
      else if f.value in p.values then Failure(DuplicateField(key))
      else
        var v := ParseField(lib, f.value, text);
        if v.None? then Failure(InvalidValue(key))
        else Success(p.(values := p.values[f.value := v.value]))
  }

  function ReadAll(lib: NumberLibrary, p: Progress, records: seq<Record>): Result<Progress, Error>
    decreases records
  {
    if records == [] then Success(p)
    else
      var next := Step(lib, p, records[0]);
      if next.Failure? then next else ReadAll(lib, next.value, records[1..])
  }

  function Finish(p: Progress): Result<SystemMetrics, Error> {
    if exists f: Field :: f !in p.values then Failure(MissingField)
    else if p.values[ProcessCount] != CountValue(|p.processes|) then Failure(ProcessCountMismatch)
    else Success(Build(p))
  }

  const NOTHING := Progress(map[], [])

  function Interpret(lib: NumberLibrary, payload: string): Result<SystemMetrics, Error> {
    var lines := SplitLines(payload);
    if lines == [] then Failure(EmptyPayload)
    else if StripCr(lines[0]) != PROTOCOL_VERSION then Failure(UnsupportedVersion(StripCr(lines[0])))
    else
      var p := ReadAll(lib, NOTHING, ClassifyAll(lines[1..]));
      if p.Failure? then Failure(p.error) else Finish(p.value)
  }

  // ---------------------------------------------------------------------------
  // The parser
  // ---------------------------------------------------------------------------

  /** The local variables of `deserialize`, processes aside. */
  datatype Locals = Locals(metrics: SystemMetrics, expectedProcessCount: nat, processCountSeen: bool)

  ghost predicate Tracks(p: Progress, l: Locals) {
    && l.metrics == Build(p)
    && l.processCountSeen == (ProcessCount in p.values)
    && (l.processCountSeen ==> p.values[ProcessCount] == CountValue(l.expectedProcessCount))
  }

  /** The outcome r of storing one scalar is the one the fold prescribes. */
  ghost predicate StoresAs(lib: NumberLibrary, p: Progress, key: string, value: string, r: Result<Locals, Error>) {
    var s := Step(lib, p, ScalarRecord(key, value));
    match r
    case Failure(e) => s == Failure(e)
    case Success(l) => s.Success? && Tracks(s.value, l)
  }

  lemma StoreRejects(lib: NumberLibrary, p: Progress, f: Field, key: string, value: string)
    requires key == Name(f) && f !in p.values && ParseField(lib, f, value).None?
    ensures StoresAs(lib, p, key, value, Failure(InvalidValue(key)))
  {
    NamesAreDistinct(f);
  }

  lemma StoreAccepts(lib: NumberLibrary, p: Progress, l: Locals, f: Field, key: string, value: string, v: Value)
    requires Tracks(p, l) && key == Name(f) && f !in p.values && ParseField(lib, f, value) == Some(v)
    requires f != ProcessCount
    ensures StoresAs(lib, p, key, value, Success(l.(metrics := Assign(l.metrics, f, v))))
  {
    hide ParseField, Build, Assign, Name, FieldNamed;
    NamesAreDistinct(f);
    BuildAssigns(p, f, v);
  }

  lemma StoreCount(lib: NumberLibrary, p: Progress, l: Locals, key: string, value: string, n: nat)
    requires Tracks(p, l) && key == Name(ProcessCount) && ProcessCount !in p.values
    requires ParseField(lib, ProcessCount, value) == Some(CountValue(n))
    ensures StoresAs(lib, p, key, value, Success(l.(expectedProcessCount := n, processCountSeen := true)))
  {
    hide ParseField, Build, Name, FieldNamed;
    NamesAreDistinct(ProcessCount);
    BuildAssigns(p, ProcessCount, CountValue(n));
  }

  /** System and CPU. None when the key belongs to another section. */
  method StoreHostField(lib: NumberLibrary, l: Locals, key: string, value: string, ghost p: Progress)
    returns (r: Option<Result<Locals, Error>>)
    requires Tracks(p, l) && (forall f: Field :: key == Name(f) ==> f !in p.values)
    ensures r.Some? ==> StoresAs(lib, p, key, value, r.value)
    ensures r.None? ==>
              && key != Name(Hostname) && key != Name(UptimeSeconds) && key != Name(LogicalCpus)
              && key != Name(CpuUsagePercent)
  {
    hide StoresAs, Tracks, ParseUint64, ParseDouble;
    if key == "hostname" {
      if value == "" {
        StoreRejects(lib, p, Hostname, key, value);
        return Some(Failure(InvalidValue(key)));
      }
      StoreAccepts(lib, p, l, Hostname, key, value, TextValue(value));
      return Some(Success(l.(metrics := l.metrics.(hostname := value))));
    } else if key == "uptime_seconds" {
      var n := ParseUint64(lib, value);
      if n.None? {
        StoreRejects(lib, p, UptimeSeconds, key, value);
        return Some(Failure(InvalidValue(key)));
      }
      StoreAccepts(lib, p, l, UptimeSeconds, key, value, CountValue(n.value));
      return Some(Success(l.(metrics := l.metrics.(uptimeSeconds := n.value))));
    } else if key == "logical_cpus" {
      var n := ParseUint64(lib, value);
      if n.None? || n.value == 0 {
        StoreRejects(lib, p, LogicalCpus, key, value);
        return Some(Failure(InvalidValue(key)));
      }
      StoreAccepts(lib, p, l, LogicalCpus, key, value, CountValue(n.value));
      return Some(Success(l.(metrics := l.metrics.(logicalCpuCount := n.value))));
    } else if key == "cpu_usage_percent" {
      var n := ParseDouble(lib, value);
      if n.None? {
        StoreRejects(lib, p, CpuUsagePercent, key, value);
        return Some(Failure(InvalidValue(key)));
      }
      StoreAccepts(lib, p, l, CpuUsagePercent, key, value, NumberValue(n.value));
      return Some(Success(l.(metrics := l.metrics.(cpuUsagePercent := n.value))));
    }
    return None;
  }

  /** Memory and load. None when the key belongs to another section. */
  method StoreMemoryField(lib: NumberLibrary, l: Locals, key: string, value: string, ghost p: Progress)
    returns (r: Option<Result<Locals, Error>>)
    requires Tracks(p, l) && (forall f: Field :: key == Name(f) ==> f !in p.values)
    ensures r.Some? ==> StoresAs(lib, p, key, value, r.value)
    ensures r.None? ==>
              && key != Name(MemoryTotalKB) && key != Name(MemoryUsedKB) && key != Name(MemoryAvailableKB)
              && key != Name(MemoryUsagePercent) && key != Name(Load1) && key != Name(Load5)
              && key != Name(Load15)
  {
    hide StoresAs, Tracks, ParseUint64, ParseDouble;
    if key == "memory_total_kb" {
      var n := ParseUint64(lib, value);
      if n.None? {
        StoreRejects(lib, p, MemoryTotalKB, key, value);
        return Some(Failure(InvalidValue(key)));
      }
      StoreAccepts(lib, p, l, MemoryTotalKB, key, value, CountValue(n.value));
      return Some(Success(l.(metrics := l.metrics.(memoryTotalKB := n.value))));
    } else if key == "memory_used_kb" {
      var n := ParseUint64(lib, value);
      if n.None? {
        StoreRejects(lib, p, MemoryUsedKB, key, value);
        return Some(Failure(InvalidValue(key)));
      }
      StoreAccepts(lib, p, l, MemoryUsedKB, key, value, CountValue(n.value));
      return Some(Success(l.(metrics := l.metrics.(memoryUsedKB := n.value))));
    } else if key == "memory_available_kb" {
      var n := ParseUint64(lib, value);
      if n.None? {
        StoreRejects(lib, p, MemoryAvailableKB, key, value);
        return Some(Failure(InvalidValue(key)));
      }
      StoreAccepts(lib, p, l, MemoryAvailableKB, key, value, CountValue(n.value));
      return Some(Success(l.(metrics := l.metrics.(memoryAvailableKB := n.value))));
    } else if key == "memory_usage_percent" {
      var n := ParseDouble(lib, value);
      if n.None? {
        StoreRejects(lib, p, MemoryUsagePercent, key, value);
        return Some(Failure(InvalidValue(key)));
      }
      StoreAccepts(lib, p, l, MemoryUsagePercent, key, value, NumberValue(n.value));
      return Some(Success(l.(metrics := l.metrics.(memoryUsagePercent := n.value))));
    } else if key == "load_1" {
      var n := ParseDouble(lib, value);
      if n.None? {
        StoreRejects(lib, p, Load1, key, value);
        return Some(Failure(InvalidValue(key)));
      }
      StoreAccepts(lib, p, l, Load1, key, value, NumberValue(n.value));
      return Some(Success(l.(metrics := l.metrics.(load1 := n.value))));
    } else if key == "load_5" {
      var n := ParseDouble(lib, value);
      if n.None? {
        StoreRejects(lib, p, Load5, key, value);
        return Some(Failure(InvalidValue(key)));
      }
      StoreAccepts(lib, p, l, Load5, key, value, NumberValue(n.value));
      return Some(Success(l.(metrics := l.metrics.(load5 := n.value))));
    } else if key == "load_15" {
      var n := ParseDouble(lib, value);
      if n.None? {
        StoreRejects(lib, p, Load15, key, value);
        return Some(Failure(InvalidValue(key)));
      }
      StoreAccepts(lib, p, l, Load15, key, value, NumberValue(n.value));
      return Some(Success(l.(metrics := l.metrics.(load15 := n.value))));
    }
    return None;
  }

  /** Disk. None when the key belongs to another section. */
  method StoreDiskField(lib: NumberLibrary, l: Locals, key: string, value: string, ghost p: Progress)
    returns (r: Option<Result<Locals, Error>>)
    requires Tracks(p, l) && (forall f: Field :: key == Name(f) ==> f !in p.values)
    ensures r.Some? ==> StoresAs(lib, p, key, value, r.value)
    ensures r.None? ==>
              && key != Name(DiskMount) && key != Name(DiskTotalBytes) && key != Name(DiskUsedBytes)
              && key != Name(DiskAvailableBytes) && key != Name(DiskUsagePercent)
  {
    hide StoresAs, Tracks, ParseUint64, ParseDouble;
    if key == "disk_mount" {
      if value == "" {
        StoreRejects(lib, p, DiskMount, key, value);
        return Some(Failure(InvalidValue(key)));
      }
      StoreAccepts(lib, p, l, DiskMount, key, value, TextValue(value));
      return Some(Success(l.(metrics := l.metrics.(diskMountPoint := value))));
    } else if key == "disk_total_bytes" {
      var n := ParseUint64(lib, value);
      if n.None? {
        StoreRejects(lib, p, DiskTotalBytes, key, value);
        return Some(Failure(InvalidValue(key)));
      }
      StoreAccepts(lib, p, l, DiskTotalBytes, key, value, CountValue(n.value));
      return Some(Success(l.(metrics := l.metrics.(diskTotalBytes := n.value))));
    } else if key == "disk_used_bytes" {
      var n := ParseUint64(lib, value);
      if n.None? {
        StoreRejects(lib, p, DiskUsedBytes, key, value);
        return Some(Failure(InvalidValue(key)));
      }
      StoreAccepts(lib, p, l, DiskUsedBytes, key, value, CountValue(n.value));
      return Some(Success(l.(metrics := l.metrics.(diskUsedBytes := n.value))));
    } else if key == "disk_available_bytes" {
      var n := ParseUint64(lib, value);
      if n.None? {
        StoreRejects(lib, p, DiskAvailableBytes, key, value);
        return Some(Failure(InvalidValue(key)));
      }
      StoreAccepts(lib, p, l, DiskAvailableBytes, key, value, CountValue(n.value));
      return Some(Success(l.(metrics := l.metrics.(diskAvailableBytes := n.value))));
    } else if key == "disk_usage_percent" {
      var n := ParseDouble(lib, value);
      if n.None? {
        StoreRejects(lib, p, DiskUsagePercent, key, value);
        return Some(Failure(InvalidValue(key)));
      }
      StoreAccepts(lib, p, l, DiskUsagePercent, key, value, NumberValue(n.value));
      return Some(Success(l.(metrics := l.metrics.(diskUsagePercent := n.value))));
    }
    return None;
  }

  /** Network. None when the key belongs to another section. */
  method StoreNetworkField(lib: NumberLibrary, l: Locals, key: string, value: string, ghost p: Progress)
    returns (r: Option<Result<Locals, Error>>)
    requires Tracks(p, l) && (forall f: Field :: key == Name(f) ==> f !in p.values)
    ensures r.Some? ==> StoresAs(lib, p, key, value, r.value)
    ensures r.None? ==>
              && key != Name(NetworkInterface) && key != Name(NetworkRxBytesPerSecond)
              && key != Name(NetworkTxBytesPerSecond)
  {
    hide StoresAs, Tracks, ParseUint64, ParseDouble;
    if key == "network_interface" {
      if value == "" {
        StoreRejects(lib, p, NetworkInterface, key, value);
        return Some(Failure(InvalidValue(key)));
      }
      StoreAccepts(lib, p, l, NetworkInterface, key, value, TextValue(value));
      return Some(Success(l.(metrics := l.metrics.(networkInterface := value))));
    } else if key == "network_rx_bytes_per_second" {
      var n := ParseDouble(lib, value);
      if n.None? {
        StoreRejects(lib, p, NetworkRxBytesPerSecond, key, value);
        return Some(Failure(InvalidValue(key)));
      }
      StoreAccepts(lib, p, l, NetworkRxBytesPerSecond, key, value, NumberValue(n.value));
      return Some(Success(l.(metrics := l.metrics.(networkRxBytesPerSecond := n.value))));
    } else if key == "network_tx_bytes_per_second" {
      var n := ParseDouble(lib, value);
      if n.None? {
        StoreRejects(lib, p, NetworkTxBytesPerSecond, key, value);
        return Some(Failure(InvalidValue(key)));
      }
      StoreAccepts(lib, p, l, NetworkTxBytesPerSecond, key, value, NumberValue(n.value));
      return Some(Success(l.(metrics := l.metrics.(networkTxBytesPerSecond := n.value))));
    }
    return None;
  }

  /** Sampling and the number of processes. None when the key belongs to another section. */
  method StoreSampleField(lib: NumberLibrary, l: Locals, key: string, value: string, ghost p: Progress)
    returns (r: Option<Result<Locals, Error>>)
    requires Tracks(p, l) && (forall f: Field :: key == Name(f) ==> f !in p.values)
    ensures r.Some? ==> StoresAs(lib, p, key, value, r.value)
    ensures r.None? ==>
              && key != Name(SampleIntervalSeconds) && key != Name(ProcessCount)
  {
    hide StoresAs, Tracks, ParseUint64, ParseDouble;
    if key == "sample_interval_seconds" {
      var n := ParseDouble(lib, value);
      if n.None? || !n.value.Positive() {
        StoreRejects(lib, p, SampleIntervalSeconds, key, value);
        return Some(Failure(InvalidValue(key)));
      }
      StoreAccepts(lib, p, l, SampleIntervalSeconds, key, value, NumberValue(n.value));
      return Some(Success(l.(metrics := l.metrics.(sampleIntervalSeconds := n.value))));
    } else if key == "process_count" {
      var n := ParseUint64(lib, value);
      if n.None? {
        StoreRejects(lib, p, ProcessCount, key, value);
        return Some(Failure(InvalidValue(key)));
      }
      StoreCount(lib, p, l, key, value, n.value);
      return Some(Success(l.(expectedProcessCount := n.value, processCountSeen := true)));
    }
    return None;
  }

  /** The chain of comparisons on the key of a line, after the key has been marked as received. */
  method StoreField(lib: NumberLibrary, l: Locals, key: string, value: string, ghost p: Progress)
    returns (r: Result<Locals, Error>)
    requires Tracks(p, l) && (forall f: Field :: key == Name(f) ==> f !in p.values)
    ensures StoresAs(lib, p, key, value, r)
  {
    hide Tracks, Name;
    var host := StoreHostField(lib, l, key, value, p);
    if host.Some? {
      return host.value;
    }
    var memory := StoreMemoryField(lib, l, key, value, p);
    if memory.Some? {
      return memory.value;
    }
    var disk := StoreDiskField(lib, l, key, value, p);
    if disk.Some? {
      return disk.value;
    }
    var network := StoreNetworkField(lib, l, key, value, p);
    if network.Some? {
      return network.value;
    }
    var sample := StoreSampleField(lib, l, key, value, p);
    if sample.Some? {
      return sample.value;
    }
    forall f: Field
      ensures key != Name(f)
    {
      match f
      case Hostname | UptimeSeconds | LogicalCpus | CpuUsagePercent
         | MemoryTotalKB | MemoryUsedKB | MemoryAvailableKB | MemoryUsagePercent | Load1 | Load5 | Load15
         | DiskMount | DiskTotalBytes | DiskUsedBytes | DiskAvailableBytes | DiskUsagePercent
         | NetworkInterface | NetworkRxBytesPerSecond | NetworkTxBytesPerSecond
         | SampleIntervalSeconds | ProcessCount =>
    }
    UnknownKey(key);
    return Failure(UnknownField(key));
  }

  lemma UnknownKey(key: string)
    requires forall f: Field :: key != Name(f)
    ensures FieldNamed(key) == None
  {
    hide FieldNamed;
  }

  // The records of the lines that follow position pos.
  ghost function RecordsFrom(payload: string, pos: nat): seq<Record>
    requires pos <= |payload|
  {
    ClassifyAll(SplitLines(payload[pos..]))
  }

  /** `std::getline`, with the carriage return of a CRLF line dropped. */
  method GetLine(payload: string, pos: nat) returns (line: string, next: nat)
    requires pos < |payload|
    ensures pos < next <= |payload|
    ensures SplitLines(payload[pos..]) != []
    ensures line == StripCr(SplitLines(payload[pos..])[0])
    ensures SplitLines(payload[next..]) == SplitLines(payload[pos..])[1..]
  {
    hide SplitLines, IndexOf;
    ghost var rest := payload[pos..];
    var i := IndexOf(payload[pos..], '\n');
    FirstLine(rest);
    line := payload[pos..pos + i];
    assert line == rest[..i];
    if pos + i < |payload| {
      next := pos + i + 1;
      assert rest[i + 1..] == payload[next..];
    } else {
      next := |payload|;
      assert payload[next..] == "";
    }
    if line != "" && line[|line| - 1] == '\r' {
      line := line[..|line| - 1];
    }
  }

  lemma FirstLine(s: string)
    requires s != ""
    ensures var i := IndexOf(s, '\n');
            SplitLines(s) == [s[..i]] + SplitLines(if i < |s| then s[i + 1..] else "")
  {
    assert s[..|s|] == s;
  }

  /** The received keys are the names of the fields collected so far. */
  ghost predicate Mirrors(received: set<string>, p: Progress) {
    && (forall f <- p.values :: Name(f) in received)
    && (forall key <- received :: FieldNamed(key).Some? && FieldNamed(key).value in p.values)
  }

  lemma MarkingMirrors(received: set<string>, p: Progress, f: Field, v: Value)
    requires Mirrors(received, p)
    ensures Mirrors(received + {Name(f)}, p.(values := p.values[f := v]))
  {
    hide Name, FieldNamed;
    NamesAreDistinct(f);
  }

  lemma MirroredKey(received: set<string>, p: Progress, key: string)
    requires Mirrors(received, p)
    ensures key in received <==> FieldNamed(key).Some? && FieldNamed(key).value in p.values
  {
    hide Name, FieldNamed;
  }

  /** `verifyRequiredFields`. */
  method VerifyRequiredFields(received: set<string>, ghost p: Progress) returns (ok: bool)
    requires Mirrors(received, p)
    ensures ok <==> forall f: Field :: f in p.values
  {
    hide Name, FieldNamed, Mirrors;
    for i := 0 to |FIELDS|
      invariant forall j :: 0 <= j < i ==> FIELDS[j] in p.values
    {
      MirroredKey(received, p, Name(FIELDS[i]));
      NamesAreDistinct(FIELDS[i]);
      if Name(FIELDS[i]) !in received {
        return false;
      }
    }
    forall f: Field
      ensures f in p.values
    {
      assert FIELDS[Position(f)] == f;
    }
    return true;
  }

  /** One line of the body: `continue` on a blank one, otherwise a process or a scalar. */
  method ReadLine(lib: NumberLibrary, l: Locals, received: set<string>, line: string, ghost p: Progress)
    returns (r: Result<Locals, Error>, received': set<string>)
    requires Tracks(p, l) && Mirrors(received, p)
    ensures match r
            case Failure(e) => Step(lib, p, ClassifyStripped(line)) == Failure(e)
            case Success(l') =>
              && Step(lib, p, ClassifyStripped(line)).Success?
              && Tracks(Step(lib, p, ClassifyStripped(line)).value, l')
              && Mirrors(received', Step(lib, p, ClassifyStripped(line)).value)
  {
    received' := received;
    if line == "" {
      return Success(l), received;
    }
    var equals := IndexOf(line, '=');
    if equals == |line| {
      return Failure(MalformedLine(line)), received;
    }
    var key, value := line[..equals], line[equals + 1..];
    if key == "" {
      return Failure(EmptyFieldName), received;
    }
    if key == "process" {
      var process := ParseProcessRecord(lib, value);
      if process.None? {
        return Failure(InvalidProcess(value)), received;
      }
      r := Success(l.(metrics := l.metrics.(topProcesses := l.metrics.topProcesses + [process.value])));
      AppendProcess(p, process.value);
      return r, received;
    }
    r, received' := ReadScalar(lib, l, received, key, value, p);
  }

  /** Marks the key, then stores the value. A key seen before is refused whatever it is. */
  method ReadScalar(lib: NumberLibrary, l: Locals, received: set<string>, key: string, value: string, ghost p: Progress)
    returns (r: Result<Locals, Error>, received': set<string>)
    requires Tracks(p, l) && Mirrors(received, p)
    ensures StoresAs(lib, p, key, value, r)
    ensures r.Success? ==> Mirrors(received', Step(lib, p, ScalarRecord(key, value)).value)
  {
    hide Tracks, Name, StoresAs;
    MirroredKey(received, p, key);
    received' := received;
    if key in received {
      StoresDuplicate(lib, p, key, value);
      return Failure(DuplicateField(key)), received;
    }
    received' := received + {key};
    forall f: Field | key == Name(f)
      ensures f !in p.values
    {
      NamesAreDistinct(f);
    }
    r := StoreField(lib, l, key, value, p);
    if r.Success? {
      StoredIsMarked(lib, received, p, key, value, r);
    }
  }

  lemma StoresDuplicate(lib: NumberLibrary, p: Progress, key: string, value: string)
    requires FieldNamed(key).Some? && FieldNamed(key).value in p.values
    ensures StoresAs(lib, p, key, value, Failure(DuplicateField(key)))
  {
    hide FieldNamed;
  }

  lemma StoredIsMarked(
    lib: NumberLibrary, received: set<string>, p: Progress, key: string, value: string, r: Result<Locals, Error>)
    requires Mirrors(received, p) && StoresAs(lib, p, key, value, r) && r.Success?
    ensures Step(lib, p, ScalarRecord(key, value)).Success?
    ensures Mirrors(received + {key}, Step(lib, p, ScalarRecord(key, value)).value)
  {
    hide FieldNamed, Name, Tracks, ParseField, Mirrors;
    var f := FieldNamed(key).value;
    MarkingMirrors(received, p, f, ParseField(lib, f, value).value);
  }

  lemma AppendProcess(p: Progress, process: ProcessMetric)
    ensures var q := p.(processes := p.processes + [process]);
            Build(q) == Build(p).(topProcesses := Build(p).topProcesses + [process])
  {
    hide TextAt, CountAt, NumberAt;
  }

  /** `MetricsDeserializer::deserialize`. */
  method Deserialize(lib: NumberLibrary, payload: string) returns (r: Result<SystemMetrics, Error>)
    ensures r == Interpret(lib, payload)
  {
    hide Tracks, Mirrors, Step, Build, ClassifyStripped, SplitLines, Finish;
    if payload == "" {
      NoLines();
      return Failure(EmptyPayload);
    }
    assert payload[0..] == payload;
    var line, pos := GetLine(payload, 0);
    if line != PROTOCOL_VERSION {
      return Failure(UnsupportedVersion(line));
    }
    var l := Locals(DEFAULT_METRICS, 0, false);
    var received: set<string> := {};
    ghost var p := NOTHING;
    NothingTracked();
    ghost var body := ClassifyAll(SplitLines(payload)[1..]);
    while pos < |payload|
      invariant 0 <= pos <= |payload|
      invariant Tracks(p, l) && Mirrors(received, p)
      invariant ReadAll(lib, NOTHING, body) == ReadAll(lib, p, RecordsFrom(payload, pos))
      decreases |payload| - pos
    {
      ghost var records := RecordsFrom(payload, pos);
      var next;
      line, next := GetLine(payload, pos);
      assert records[1..] == RecordsFrom(payload, next);
      var outcome;
      outcome, received := ReadLine(lib, l, received, line, p);
      if outcome.Failure? {
        return Failure(outcome.error);
      }
      l := outcome.value;
      p := Step(lib, p, ClassifyStripped(line)).value;
      pos := next;
    }
    assert payload[pos..] == "";
    NoLines();
    assert ReadAll(lib, NOTHING, body) == Success(p);
    var complete := VerifyRequiredFields(received, p);
    r := Conclude(l, complete, p);
  }

  method Conclude(l: Locals, complete: bool, ghost p: Progress) returns (r: Result<SystemMetrics, Error>)
    requires Tracks(p, l) && (complete <==> forall f: Field :: f in p.values)
    ensures r == Finish(p)
  {
    if !complete {
      return Failure(MissingField);
    }
    if !l.processCountSeen {
      return Failure(MissingField);
    }
    if |l.metrics.topProcesses| != l.expectedProcessCount {
      return Failure(ProcessCountMismatch);
    }
    return Success(l.metrics);
  }

  lemma NoLines()
    ensures SplitLines("") == []
  {
  }

  lemma NothingTracked()
    ensures Tracks(NOTHING, Locals(DEFAULT_METRICS, 0, false)) && Mirrors({}, NOTHING)
  {
  }
}
