/** The metrics snapshot of include/model/SystemMetrics.h and the 21 scalar fields of its wire
    form. A snapshot is its scalar fields and its process list, and nothing else. */
module Metrics {
  import opened Wrappers
  import opened Decimal

  datatype ProcessMetric = ProcessMetric(
    pid: int32,
    name: string,
    cpuUsagePercent: Double,
    memoryUsagePercent: Double,
    residentMemoryKB: uint64)

  datatype SystemMetrics = SystemMetrics(
    hostname: string,
    uptimeSeconds: uint64,
    logicalCpuCount: uint64,
    cpuUsagePercent: Double,
    memoryTotalKB: uint64,
    memoryUsedKB: uint64,
    memoryAvailableKB: uint64,
    memoryUsagePercent: Double,
    load1: Double,
    load5: Double,
    load15: Double,
    diskMountPoint: string,
    diskTotalBytes: uint64,
    diskUsedBytes: uint64,
    diskAvailableBytes: uint64,
    diskUsagePercent: Double,
    networkInterface: string,
    networkRxBytesPerSecond: Double,
    networkTxBytesPerSecond: Double,
    sampleIntervalSeconds: Double,
    topProcesses: seq<ProcessMetric>)

  const ZERO := Double(false, 0.0)

  /** The member initialisers of the struct. */
  const DEFAULT_METRICS := SystemMetrics(
    "", 0, 0, ZERO, 0, 0, 0, ZERO, ZERO, ZERO, ZERO, "", 0, 0, 0, ZERO, "", ZERO, ZERO, ZERO, [])

  // ---------------------------------------------------------------------------
  // Fields
  // ---------------------------------------------------------------------------

  datatype Field =
    | Hostname | UptimeSeconds | LogicalCpus
    | CpuUsagePercent
    | MemoryTotalKB | MemoryUsedKB | MemoryAvailableKB | MemoryUsagePercent
    | Load1 | Load5 | Load15
    | DiskMount | DiskTotalBytes | DiskUsedBytes | DiskAvailableBytes | DiskUsagePercent
    | NetworkInterface | NetworkRxBytesPerSecond | NetworkTxBytesPerSecond
    | SampleIntervalSeconds
    | ProcessCount

  /** All fields, in the order they are printed. */
  const FIELDS: seq<Field> := [
    Hostname, UptimeSeconds, LogicalCpus, CpuUsagePercent,
    MemoryTotalKB, MemoryUsedKB, MemoryAvailableKB, MemoryUsagePercent,
    Load1, Load5, Load15,
    DiskMount, DiskTotalBytes, DiskUsedBytes, DiskAvailableBytes, DiskUsagePercent,
    NetworkInterface, NetworkRxBytesPerSecond, NetworkTxBytesPerSecond,
    SampleIntervalSeconds, ProcessCount]

  function Position(f: Field): (i: nat)
    ensures i < |FIELDS| && FIELDS[i] == f
  {
    match f
    case Hostname => 0
    case UptimeSeconds => 1
    case LogicalCpus => 2
    case CpuUsagePercent => 3
    case MemoryTotalKB => 4
    case MemoryUsedKB => 5
    case MemoryAvailableKB => 6
    case MemoryUsagePercent => 7
    case Load1 => 8
    case Load5 => 9
    case Load15 => 10
    case DiskMount => 11
    case DiskTotalBytes => 12
    case DiskUsedBytes => 13
    case DiskAvailableBytes => 14
    case DiskUsagePercent => 15
    case NetworkInterface => 16
    case NetworkRxBytesPerSecond => 17
    case NetworkTxBytesPerSecond => 18
    case SampleIntervalSeconds => 19
    case ProcessCount => 20
  }

  function Name(f: Field): string {
    match f
    case Hostname => "hostname"
    case UptimeSeconds => "uptime_seconds"
    case LogicalCpus => "logical_cpus"
    case CpuUsagePercent => "cpu_usage_percent"
    case MemoryTotalKB => "memory_total_kb"
    case MemoryUsedKB => "memory_used_kb"
    case MemoryAvailableKB => "memory_available_kb"
    case MemoryUsagePercent => "memory_usage_percent"
    case Load1 => "load_1"
    case Load5 => "load_5"
    case Load15 => "load_15"
    case DiskMount => "disk_mount"
    case DiskTotalBytes => "disk_total_bytes"
    case DiskUsedBytes => "disk_used_bytes"
    case DiskAvailableBytes => "disk_available_bytes"
    case DiskUsagePercent => "disk_usage_percent"
    case NetworkInterface => "network_interface"
    case NetworkRxBytesPerSecond => "network_rx_bytes_per_second"
    case NetworkTxBytesPerSecond => "network_tx_bytes_per_second"
    case SampleIntervalSeconds => "sample_interval_seconds"
    case ProcessCount => "process_count"
  }

  /** The field a key names, tried in the order of the parser's chain of comparisons. */
  function FieldNamed(key: string): (f: Option<Field>)
    ensures f.Some? ==> Name(f.value) == key
  {
    if key == "hostname" then Some(Hostname)
    else if key == "uptime_seconds" then Some(UptimeSeconds)
    else if key == "logical_cpus" then Some(LogicalCpus)
    else if key == "cpu_usage_percent" then Some(CpuUsagePercent)
    else if key == "memory_total_kb" then Some(MemoryTotalKB)
    else if key == "memory_used_kb" then Some(MemoryUsedKB)
    else if key == "memory_available_kb" then Some(MemoryAvailableKB)
    else if key == "memory_usage_percent" then Some(MemoryUsagePercent)
    else if key == "load_1" then Some(Load1)
    else if key == "load_5" then Some(Load5)
    else if key == "load_15" then Some(Load15)
    else if key == "disk_mount" then Some(DiskMount)
    else if key == "disk_total_bytes" then Some(DiskTotalBytes)
    else if key == "disk_used_bytes" then Some(DiskUsedBytes)
    else if key == "disk_available_bytes" then Some(DiskAvailableBytes)
    else if key == "disk_usage_percent" then Some(DiskUsagePercent)
    else if key == "network_interface" then Some(NetworkInterface)
    else if key == "network_rx_bytes_per_second" then Some(NetworkRxBytesPerSecond)
    else if key == "network_tx_bytes_per_second" then Some(NetworkTxBytesPerSecond)
    else if key == "sample_interval_seconds" then Some(SampleIntervalSeconds)
    else if key == "process_count" then Some(ProcessCount)
    else None
  }

  lemma NamesAreDistinct(f: Field)
    ensures FieldNamed(Name(f)) == Some(f)
  {
    hide FieldNamed, Name;
    if Position(f) <= 10 {
      EarlyNamesAreDistinct(f);
    } else if Position(f) <= 14 {
      MiddleNamesAreDistinct(f);
    } else if Position(f) <= 16 {
      NetworkNamesAreDistinct(f);
    } else if Position(f) <= 18 {
      RateNamesAreDistinct(f);
    } else {
      LateNamesAreDistinct(f);
    }
  }

  lemma EarlyNamesAreDistinct(f: Field)
    requires Position(f) <= 10
    ensures FieldNamed(Name(f)) == Some(f)
  {
    assert "load_1"[5] != "load_5"[5];
  }

  lemma MiddleNamesAreDistinct(f: Field)
    requires 10 < Position(f) <= 14
    ensures FieldNamed(Name(f)) == Some(f)
  {
  }

  lemma NetworkNamesAreDistinct(f: Field)
    requires 14 < Position(f) <= 16
    ensures FieldNamed(Name(f)) == Some(f)
  {
  }

  lemma RateNamesAreDistinct(f: Field)
    requires 16 < Position(f) <= 18
    ensures FieldNamed(Name(f)) == Some(f)
  {
    assert "network_rx_bytes_per_second"[8] != "network_tx_bytes_per_second"[8];
  }

  lemma LateNamesAreDistinct(f: Field)
    requires Position(f) > 18
    ensures FieldNamed(Name(f)) == Some(f)
  {
  }

  // ---------------------------------------------------------------------------
  // Values
  // ---------------------------------------------------------------------------

  datatype Kind = NonEmptyText | Count | PositiveCount | Number | PositiveNumber

  datatype Value = TextValue(text: string) | CountValue(count: nat) | NumberValue(number: Double)

  function KindOf(f: Field): Kind {
    match f
    case Hostname | DiskMount | NetworkInterface => NonEmptyText
    case LogicalCpus => PositiveCount
    case SampleIntervalSeconds => PositiveNumber
    case CpuUsagePercent | MemoryUsagePercent | Load1 | Load5 | Load15
       | DiskUsagePercent | NetworkRxBytesPerSecond | NetworkTxBytesPerSecond => Number
    case _ => Count
  }

  function ValueOf(m: SystemMetrics, f: Field): Value {
    match f
    case Hostname => TextValue(m.hostname)
    case UptimeSeconds => CountValue(m.uptimeSeconds)
    case LogicalCpus => CountValue(m.logicalCpuCount)
    case CpuUsagePercent => NumberValue(m.cpuUsagePercent)
    case MemoryTotalKB => CountValue(m.memoryTotalKB)
    case MemoryUsedKB => CountValue(m.memoryUsedKB)
    case MemoryAvailableKB => CountValue(m.memoryAvailableKB)
    case MemoryUsagePercent => NumberValue(m.memoryUsagePercent)
    case Load1 => NumberValue(m.load1)
    case Load5 => NumberValue(m.load5)
    case Load15 => NumberValue(m.load15)
    case DiskMount => TextValue(m.diskMountPoint)
    case DiskTotalBytes => CountValue(m.diskTotalBytes)
    case DiskUsedBytes => CountValue(m.diskUsedBytes)
    case DiskAvailableBytes => CountValue(m.diskAvailableBytes)
    case DiskUsagePercent => NumberValue(m.diskUsagePercent)
    case NetworkInterface => TextValue(m.networkInterface)
    case NetworkRxBytesPerSecond => NumberValue(m.networkRxBytesPerSecond)
    case NetworkTxBytesPerSecond => NumberValue(m.networkTxBytesPerSecond)
    case SampleIntervalSeconds => NumberValue(m.sampleIntervalSeconds)
    case ProcessCount => CountValue(|m.topProcesses|)
  }

  lemma SnapshotIsItsFields(m1: SystemMetrics, m2: SystemMetrics)
    requires forall f: Field :: ValueOf(m1, f) == ValueOf(m2, f)
    requires m1.topProcesses == m2.topProcesses
    ensures m1 == m2
  {
    assert ValueOf(m1, Hostname) == ValueOf(m2, Hostname);
    assert ValueOf(m1, UptimeSeconds) == ValueOf(m2, UptimeSeconds);
    assert ValueOf(m1, LogicalCpus) == ValueOf(m2, LogicalCpus);
    assert ValueOf(m1, CpuUsagePercent) == ValueOf(m2, CpuUsagePercent);
    assert ValueOf(m1, MemoryTotalKB) == ValueOf(m2, MemoryTotalKB);
    assert ValueOf(m1, MemoryUsedKB) == ValueOf(m2, MemoryUsedKB);
    assert ValueOf(m1, MemoryAvailableKB) == ValueOf(m2, MemoryAvailableKB);
    assert ValueOf(m1, MemoryUsagePercent) == ValueOf(m2, MemoryUsagePercent);
    assert ValueOf(m1, Load1) == ValueOf(m2, Load1);
    assert ValueOf(m1, Load5) == ValueOf(m2, Load5);
    assert ValueOf(m1, Load15) == ValueOf(m2, Load15);
    assert ValueOf(m1, DiskMount) == ValueOf(m2, DiskMount);
    assert ValueOf(m1, DiskTotalBytes) == ValueOf(m2, DiskTotalBytes);
    assert ValueOf(m1, DiskUsedBytes) == ValueOf(m2, DiskUsedBytes);
    assert ValueOf(m1, DiskAvailableBytes) == ValueOf(m2, DiskAvailableBytes);
    assert ValueOf(m1, DiskUsagePercent) == ValueOf(m2, DiskUsagePercent);
    assert ValueOf(m1, NetworkInterface) == ValueOf(m2, NetworkInterface);
    assert ValueOf(m1, NetworkRxBytesPerSecond) == ValueOf(m2, NetworkRxBytesPerSecond);
    assert ValueOf(m1, NetworkTxBytesPerSecond) == ValueOf(m2, NetworkTxBytesPerSecond);
    assert ValueOf(m1, SampleIntervalSeconds) == ValueOf(m2, SampleIntervalSeconds);
  }

  /** What the parser has collected so far: at most one value for each field, and the processes. */
  datatype Progress = Progress(values: map<Field, Value>, processes: seq<ProcessMetric>)

  ghost predicate WellKinded(values: map<Field, Value>) {
    forall f <- values :: HasKind(KindOf(f), values[f])
  }

  predicate HasKind(kind: Kind, v: Value) {
    match kind
    case NonEmptyText => v.TextValue? && v.text != ""
    case Count => v.CountValue? && v.count < UINT64_LIMIT
    case PositiveCount => v.CountValue? && 0 < v.count < UINT64_LIMIT
    case Number => v.NumberValue?
    case PositiveNumber => v.NumberValue? && v.number.Positive()
  }

  function TextAt(values: map<Field, Value>, f: Field): string {
    if f in values && values[f].TextValue? then values[f].text else ""
  }

  function CountAt(values: map<Field, Value>, f: Field): uint64 {
    if f in values && values[f].CountValue? && values[f].count < UINT64_LIMIT then values[f].count else 0
  }

  function NumberAt(values: map<Field, Value>, f: Field): Double {
    if f in values && values[f].NumberValue? then values[f].number else ZERO
  }

  /** The struct under construction: fields not yet seen keep their initial values. */
  function Build(p: Progress): SystemMetrics {
    var v := p.values;
    SystemMetrics(
      TextAt(v, Hostname), CountAt(v, UptimeSeconds), CountAt(v, LogicalCpus),
      NumberAt(v, CpuUsagePercent),
      CountAt(v, MemoryTotalKB), CountAt(v, MemoryUsedKB), CountAt(v, MemoryAvailableKB),
      NumberAt(v, MemoryUsagePercent),
      NumberAt(v, Load1), NumberAt(v, Load5), NumberAt(v, Load15),
      TextAt(v, DiskMount), CountAt(v, DiskTotalBytes), CountAt(v, DiskUsedBytes), CountAt(v, DiskAvailableBytes),
      NumberAt(v, DiskUsagePercent),
      TextAt(v, NetworkInterface), NumberAt(v, NetworkRxBytesPerSecond), NumberAt(v, NetworkTxBytesPerSecond),
      NumberAt(v, SampleIntervalSeconds),
      p.processes)
  }

  lemma BuildHasTheValues(p: Progress, f: Field)
    requires WellKinded(p.values) && f in p.values && f != ProcessCount
    ensures ValueOf(Build(p), f) == p.values[f]
  {
    assert HasKind(KindOf(f), p.values[f]);
  }

  /** The member assignment that stores one value. */
  function Assign(m: SystemMetrics, f: Field, v: Value): SystemMetrics
    requires HasKind(KindOf(f), v)
  {
    match f
    case Hostname => m.(hostname := v.text)
    case UptimeSeconds => m.(uptimeSeconds := v.count)
    case LogicalCpus => m.(logicalCpuCount := v.count)
    case CpuUsagePercent => m.(cpuUsagePercent := v.number)
    case MemoryTotalKB => m.(memoryTotalKB := v.count)
    case MemoryUsedKB => m.(memoryUsedKB := v.count)
    case MemoryAvailableKB => m.(memoryAvailableKB := v.count)
    case MemoryUsagePercent => m.(memoryUsagePercent := v.number)
    case Load1 => m.(load1 := v.number)
    case Load5 => m.(load5 := v.number)
    case Load15 => m.(load15 := v.number)
    case DiskMount => m.(diskMountPoint := v.text)
    case DiskTotalBytes => m.(diskTotalBytes := v.count)
    case DiskUsedBytes => m.(diskUsedBytes := v.count)
    case DiskAvailableBytes => m.(diskAvailableBytes := v.count)
    case DiskUsagePercent => m.(diskUsagePercent := v.number)
    case NetworkInterface => m.(networkInterface := v.text)
    case NetworkRxBytesPerSecond => m.(networkRxBytesPerSecond := v.number)
    case NetworkTxBytesPerSecond => m.(networkTxBytesPerSecond := v.number)
    case SampleIntervalSeconds => m.(sampleIntervalSeconds := v.number)
    case ProcessCount => m
  }

  /** Assigning one member changes no other field. */
  lemma AssignOne(m: SystemMetrics, f: Field, v: Value, g: Field)
    requires HasKind(KindOf(f), v) && g != ProcessCount
    ensures ValueOf(Assign(m, f, v), g) == if g == f then v else ValueOf(m, g)
  {
  }

  function StoredAt(values: map<Field, Value>, f: Field): Value {
    match KindOf(f)
    case NonEmptyText => TextValue(TextAt(values, f))
    case Count | PositiveCount => CountValue(CountAt(values, f))
    case Number | PositiveNumber => NumberValue(NumberAt(values, f))
  }

  lemma BuildField(p: Progress, f: Field)
    requires f != ProcessCount
    ensures ValueOf(Build(p), f) == StoredAt(p.values, f)
  {
    hide TextAt, CountAt, NumberAt;
  }

  lemma BuildAssigns(p: Progress, f: Field, v: Value)
    requires HasKind(KindOf(f), v)
    ensures Build(p.(values := p.values[f := v])) == Assign(Build(p), f, v)
  {
    var q := p.(values := p.values[f := v]);
    forall g: Field
      ensures ValueOf(Build(q), g) == ValueOf(Assign(Build(p), f, v), g)
    {
      hide Build, Assign, ValueOf, KindOf;
      BuildSame(p, q, f, v, g);
    }
    BuildProcesses(p, f, v);
    hide Build, Assign, ValueOf, KindOf;
    SnapshotIsItsFields(Build(q), Assign(Build(p), f, v));
  }

  lemma BuildSame(p: Progress, q: Progress, f: Field, v: Value, g: Field)
    requires HasKind(KindOf(f), v) && q == p.(values := p.values[f := v])
    ensures ValueOf(Build(q), g) == ValueOf(Assign(Build(p), f, v), g)
  {
    hide Build, Assign, ValueOf, KindOf, HasKind, StoredAt;
    if g == ProcessCount {
      BuildProcesses(p, f, v);
      ProcessCountOf(Build(q));
      ProcessCountOf(Assign(Build(p), f, v));
    } else {
      BuildField(p, g);
      BuildField(q, g);
      StoreOne(p.values, f, v, g);
      AssignOne(Build(p), f, v, g);
    }
  }

  lemma ProcessCountOf(m: SystemMetrics)
    ensures ValueOf(m, ProcessCount) == CountValue(|m.topProcesses|)
  {
  }

  lemma StoreOne(values: map<Field, Value>, f: Field, v: Value, g: Field)
    requires HasKind(KindOf(f), v)
    ensures StoredAt(values[f := v], g) == if g == f then v else StoredAt(values, g)
  {
    hide KindOf;
  }

  lemma BuildProcesses(p: Progress, f: Field, v: Value)
    requires HasKind(KindOf(f), v)
    ensures Build(p.(values := p.values[f := v])).topProcesses == Assign(Build(p), f, v).topProcesses
  {
    hide TextAt, CountAt, NumberAt;
  }

  // ---------------------------------------------------------------------------
  // Quantisation
  // ---------------------------------------------------------------------------

  function RoundedProcess(p: ProcessMetric): ProcessMetric {
    p.(cpuUsagePercent := Rounded(p.cpuUsagePercent), memoryUsagePercent := Rounded(p.memoryUsagePercent))
  }

  function RoundedValue(v: Value): Value {
    if v.NumberValue? then NumberValue(Rounded(v.number)) else v
  }

  predicate FiniteField(m: SystemMetrics, f: Field) {
    ValueOf(m, f).NumberValue? ==> ValueOf(m, f).number.Finite()
  }

  ghost predicate FiniteNumbers(m: SystemMetrics) {
    && (forall f: Field :: FiniteField(m, f))
    && (forall p <- m.topProcesses :: p.cpuUsagePercent.Finite() && p.memoryUsagePercent.Finite())
  }

  /** The snapshot with every double rounded to hundredths. */
  function RoundedMetrics(m: SystemMetrics): SystemMetrics {
    m.(cpuUsagePercent := Rounded(m.cpuUsagePercent),
       memoryUsagePercent := Rounded(m.memoryUsagePercent),
       load1 := Rounded(m.load1), load5 := Rounded(m.load5), load15 := Rounded(m.load15),
       diskUsagePercent := Rounded(m.diskUsagePercent),
       networkRxBytesPerSecond := Rounded(m.networkRxBytesPerSecond),
       networkTxBytesPerSecond := Rounded(m.networkTxBytesPerSecond),
       sampleIntervalSeconds := Rounded(m.sampleIntervalSeconds),
       topProcesses := seq(|m.topProcesses|, i requires 0 <= i < |m.topProcesses| => RoundedProcess(m.topProcesses[i])))
  }

  lemma RoundedFields(m: SystemMetrics, f: Field)
    ensures ValueOf(RoundedMetrics(m), f) == RoundedValue(ValueOf(m, f))
  {
  }
}
