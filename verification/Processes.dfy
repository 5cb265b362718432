/** Process CPU usage and selection: `calculateUsage` of src/collector/ProcessCollector.cpp and the
    top-five loop of `buildMetrics` in src/agent/MonitorAgent.cpp. Percentages are exact. */
module Processes {
  import opened Wrappers
  import Decimal

  const TOP_COUNT := 5

  datatype ProcessSnapshot = ProcessSnapshot(
    pid: int, name: string, userTime: nat, systemTime: nat, startTime: nat, residentMemoryKB: nat)
  {
    /** The sum wraps around, as unsigned arithmetic does. */
    function TotalCpuTime(): nat {
      (userTime + systemTime) % Decimal.UINT64_LIMIT
    }
  }

  datatype ProcessInfo = ProcessInfo(pid: int, name: string, cpuUsage: real, memoryUsage: real, residentMemoryKB: nat)

  datatype Totals = Totals(totalCpuDelta: nat, totalMemoryKB: nat, cpuCount: nat) {
    predicate Usable() {
      totalCpuDelta != 0 && totalMemoryKB != 0 && cpuCount != 0
    }
  }

  // ---------------------------------------------------------------------------
  // Specification: a nested loop
  // ---------------------------------------------------------------------------

  /** The last previous snapshot with a given pid. */
  function LastWithPid(previous: seq<ProcessSnapshot>, pid: int): Option<ProcessSnapshot> {
    if previous == [] then None
    else if previous[|previous| - 1].pid == pid then Some(previous[|previous| - 1])
    else LastWithPid(previous[..|previous| - 1], pid)
  }

  /** Both snapshots are of one process, and its CPU time has not gone down. */
  predicate SameProcess(before: ProcessSnapshot, now: ProcessSnapshot) {
    && before.pid == now.pid && before.startTime == now.startTime
    && before.TotalCpuTime() <= now.TotalCpuTime()
  }

  predicate Eligible(previous: seq<ProcessSnapshot>, now: ProcessSnapshot) {
    LastWithPid(previous, now.pid).Some? && SameProcess(LastWithPid(previous, now.pid).value, now)
  }

  function CpuDelta(previous: seq<ProcessSnapshot>, now: ProcessSnapshot): nat
    requires Eligible(previous, now)
  {
    now.TotalCpuTime() - LastWithPid(previous, now.pid).value.TotalCpuTime()
  }

  function CpuPercent(delta: nat, totals: Totals): real
    requires totals.Usable()
  {
    100.0 * delta as real / totals.totalCpuDelta as real * totals.cpuCount as real
  }

  function InfoOf(previous: seq<ProcessSnapshot>, now: ProcessSnapshot, totals: Totals): ProcessInfo
    requires totals.Usable() && Eligible(previous, now)
  {
    ProcessInfo(now.pid, now.name, CpuPercent(CpuDelta(previous, now), totals),
                100.0 * now.residentMemoryKB as real / totals.totalMemoryKB as real, now.residentMemoryKB)
  }

  /** One entry for every eligible current process, in the order of the current snapshot. */
  function Usages(previous: seq<ProcessSnapshot>, current: seq<ProcessSnapshot>, totals: Totals): seq<ProcessInfo>
    requires totals.Usable()
  {
    if current == [] then []
    else
      var last := current[|current| - 1];
      Usages(previous, current[..|current| - 1], totals)
      + if Eligible(previous, last) then [InfoOf(previous, last, totals)] else []
  }

  lemma UsagesOneMore(previous: seq<ProcessSnapshot>, current: seq<ProcessSnapshot>, i: nat, totals: Totals)
    requires totals.Usable() && i < |current|
    ensures Usages(previous, current[..i + 1], totals)
            == if Eligible(previous, current[i])
               then Usages(previous, current[..i], totals) + [InfoOf(previous, current[i], totals)]
               else Usages(previous, current[..i], totals)
  {
    assert current[..i + 1][..i] == current[..i];
  }

  lemma {:induction false} LastWithPidIs(previous: seq<ProcessSnapshot>, pid: int)
    ensures match LastWithPid(previous, pid)
            case None => forall i :: 0 <= i < |previous| ==> previous[i].pid != pid
            case Some(p) => exists i :: 0 <= i < |previous| && previous[i] == p && p.pid == pid
                                        && forall j :: i < j < |previous| ==> previous[j].pid != pid
  {
    if previous != [] && previous[|previous| - 1].pid != pid {
      LastWithPidIs(previous[..|previous| - 1], pid);
    }
  }

  // ---------------------------------------------------------------------------
  // Sorting
  // ---------------------------------------------------------------------------

  predicate Descending(s: seq<ProcessInfo>) {
    forall i, j :: 0 <= i < j < |s| ==> s[i].cpuUsage >= s[j].cpuUsage
  }

  /** Inserts before the first entry of lower usage. */
  method Insert(s: seq<ProcessInfo>, x: ProcessInfo) returns (r: seq<ProcessInfo>)
    requires Descending(s)
    ensures Descending(r) && multiset(r) == multiset(s) + multiset{x}
  {
    var i := 0;
    while i < |s| && s[i].cpuUsage >= x.cpuUsage
      invariant i <= |s|
      invariant forall j :: 0 <= j < i ==> s[j].cpuUsage >= x.cpuUsage
    {
      i := i + 1;
    }
    r := s[..i] + [x] + s[i..];
    InsertedElements(s, i, x);
    InsertedInOrder(s, i, x);
  }

  lemma InsertedElements(s: seq<ProcessInfo>, i: nat, x: ProcessInfo)
    requires i <= |s|
    ensures multiset(s[..i] + [x] + s[i..]) == multiset(s) + multiset{x}
  {
    assert s == s[..i] + s[i..];
  }

  lemma InsertedInOrder(s: seq<ProcessInfo>, i: nat, x: ProcessInfo)
    requires i <= |s| && Descending(s)
    requires forall j :: 0 <= j < i ==> s[j].cpuUsage >= x.cpuUsage
    requires i < |s| ==> s[i].cpuUsage < x.cpuUsage
    ensures Descending(s[..i] + [x] + s[i..])
  {
    var r := s[..i] + [x] + s[i..];
    assert forall j :: 0 <= j < |r| ==> r[j] == if j < i then s[j] else if j == i then x else s[j - 1];
    assert forall j :: i <= j < |s| ==> s[j].cpuUsage <= s[i].cpuUsage;
  }

  /** Stands for `std::sort` with the comparator on `cpuUsage`: callers may rely on order and
      contents, not on the order of equal usages. */
  method SortByUsage(s: seq<ProcessInfo>) returns (r: seq<ProcessInfo>)
    ensures Descending(r) && multiset(r) == multiset(s)
  {
    r := [];
    for i := 0 to |s|
      invariant Descending(r) && multiset(r) == multiset(s[..i])
    {
      assert s[..i + 1] == s[..i] + [s[i]];
      r := Insert(r, s[i]);
    }
    assert s[..|s|] == s;
  }

  // ---------------------------------------------------------------------------
  // The collector
  // ---------------------------------------------------------------------------

  /** `calculateUsage`: a hash join on pid, a filter, and a sort. */
  method CalculateUsage(previous: seq<ProcessSnapshot>, current: seq<ProcessSnapshot>, totals: Totals)
    returns (result: seq<ProcessInfo>)
    ensures !totals.Usable() ==> result == []
    ensures totals.Usable() ==> Descending(result) && multiset(result) == multiset(Usages(previous, current, totals))
  {
    result := [];
    if totals.totalCpuDelta == 0 || totals.totalMemoryKB == 0 || totals.cpuCount == 0 {
      return;
    }
    var previousByPid := IndexByPid(previous);
    for i := 0 to |current|
      invariant result == Usages(previous, current[..i], totals)
    {
      var process := current[i];
      UsagesOneMore(previous, current, i, totals);
      hide Usages, CpuPercent;
      assert LastWithPid(previous, process.pid)
             == if process.pid in previousByPid then Some(previousByPid[process.pid]) else None;
      if process.pid !in previousByPid {
        assert !Eligible(previous, process);
        continue;
      }
      var before := previousByPid[process.pid];
      if process.startTime != before.startTime {
        assert !Eligible(previous, process);
        continue;
      }
      if process.TotalCpuTime() < before.TotalCpuTime() {
        assert !Eligible(previous, process);
        continue;
      }
      var delta := process.TotalCpuTime() - before.TotalCpuTime();
      assert Eligible(previous, process) && delta == CpuDelta(previous, process);
      result := result + [ProcessInfo(
        process.pid, process.name,
        CpuPercent(delta, totals),
        100.0 * process.residentMemoryKB as real / totals.totalMemoryKB as real,
        process.residentMemoryKB)];
    }
    assert current[..|current|] == current;
    result := SortByUsage(result);
  }

  /** The map is filled in order, so that a later entry for a pid replaces an earlier one. */
  method IndexByPid(previous: seq<ProcessSnapshot>) returns (byPid: map<int, ProcessSnapshot>)
    ensures forall pid :: LastWithPid(previous, pid) == if pid in byPid then Some(byPid[pid]) else None
    ensures forall pid <- byPid :: byPid[pid].pid == pid
  {
    byPid := map[];
    for i := 0 to |previous|
      invariant forall pid :: LastWithPid(previous[..i], pid) == if pid in byPid then Some(byPid[pid]) else None
      invariant forall pid <- byPid :: byPid[pid].pid == pid
    {
      assert previous[..i + 1][..i] == previous[..i];
      byPid := byPid[previous[i].pid := previous[i]];
    }
    assert previous[..|previous|] == previous;
  }

  /** The selection loop of `buildMetrics`. */
  method SelectTop(processes: seq<ProcessInfo>) returns (top: seq<ProcessInfo>)
    ensures |top| == if |processes| < 5 then |processes| else 5
    ensures top <= processes
  {
    var topCount := if |processes| < TOP_COUNT then |processes| else TOP_COUNT;
    top := [];
    for i := 0 to topCount
      invariant top == processes[..i]
    {
      top := top + [processes[i]];
    }
  }

  // ---------------------------------------------------------------------------
  // Results
  // ---------------------------------------------------------------------------

  /** A process is eligible exactly if some earlier snapshot has its pid, and the last one that has it is of
      the same start time and of no more CPU time. */
  lemma EligibleExactly(previous: seq<ProcessSnapshot>, now: ProcessSnapshot)
    ensures Eligible(previous, now)
            <==> exists i :: 0 <= i < |previous| && IsBefore(previous, i, now)
  {
    LastWithPidIs(previous, now.pid);
    if Eligible(previous, now) {
      var i :| 0 <= i < |previous| && previous[i] == LastWithPid(previous, now.pid).value
               && forall j :: i < j < |previous| ==> previous[j].pid != now.pid;
      assert IsBefore(previous, i, now);
    }
    if i :| 0 <= i < |previous| && IsBefore(previous, i, now) {
      BeforeIsLast(previous, i, now);
    }
  }

  /** Entry i is the last one of the process, started at the same time and not ahead in CPU time, the sum
      of user and system time modulo 2^64. */
  predicate IsBefore(previous: seq<ProcessSnapshot>, i: nat, now: ProcessSnapshot)
    requires i < |previous|
  {
    var before := previous[i];
    && before.pid == now.pid && (forall j :: i < j < |previous| ==> previous[j].pid != now.pid)
    && before.startTime == now.startTime
    && (before.userTime + before.systemTime) % 0x1_0000_0000_0000_0000
       <= (now.userTime + now.systemTime) % 0x1_0000_0000_0000_0000
  }

  lemma {:induction false} BeforeIsLast(previous: seq<ProcessSnapshot>, i: nat, now: ProcessSnapshot)
    requires i < |previous| && previous[i].pid == now.pid
    requires forall j :: i < j < |previous| ==> previous[j].pid != now.pid
    ensures LastWithPid(previous, now.pid) == Some(previous[i])
  {
    if i < |previous| - 1 {
      BeforeIsLast(previous[..|previous| - 1], i, now);
    }
  }

  /** What an entry says: pid, name and memory of the process, the share of the CPU time used between the
      samples times the number of CPUs, and the share of the memory, both in percent. */
  lemma EntrySays(previous: seq<ProcessSnapshot>, now: ProcessSnapshot, totals: Totals, i: nat)
    requires totals.Usable() && i < |previous| && IsBefore(previous, i, now)
    ensures Eligible(previous, now)
    ensures var info := InfoOf(previous, now, totals);
            var used := (now.userTime + now.systemTime) % 0x1_0000_0000_0000_0000
                        - (previous[i].userTime + previous[i].systemTime) % 0x1_0000_0000_0000_0000;
            && info.pid == now.pid && info.name == now.name && info.residentMemoryKB == now.residentMemoryKB
            && info.cpuUsage * totals.totalCpuDelta as real == 100.0 * used as real * totals.cpuCount as real
            && info.memoryUsage * totals.totalMemoryKB as real == 100.0 * now.residentMemoryKB as real
  {
    BeforeIsLast(previous, i, now);
    PercentIs(CpuDelta(previous, now), totals);
  }

  lemma PercentIs(delta: nat, totals: Totals)
    requires totals.Usable()
    ensures CpuPercent(delta, totals) * totals.totalCpuDelta as real == 100.0 * delta as real * totals.cpuCount as real
  {
    var d, t, c := 100.0 * delta as real, totals.totalCpuDelta as real, totals.cpuCount as real;
    calc {
      CpuPercent(delta, totals) * t;
      d / t * c * t;
      d / t * t * c;
      d * c;
    }
  }

  /** Usage orders processes as their CPU-time deltas do. */
  lemma UsageOrdersByDelta(a: nat, b: nat, totals: Totals)
    requires totals.Usable()
    ensures a <= b <==> CpuPercent(a, totals) <= CpuPercent(b, totals)
  {
    var t, c := totals.totalCpuDelta as real, totals.cpuCount as real;
    var k := 100.0 / t * c;
    assert k > 0.0;
    assert CpuPercent(a, totals) == a as real * k;
    assert CpuPercent(b, totals) == b as real * k;
    if a <= b {
      ScaleOrder(a as real, b as real, k);
    } else {
      ScaleOrder(b as real, a as real, k);
    }
  }

  lemma ScaleOrder(x: real, y: real, k: real)
    requires x <= y && k > 0.0
    ensures x * k <= y * k && (x < y ==> x * k < y * k)
  {
  }

  /** The reported five dominate: in any list that is a descending permutation of the usages, an
      eligible process either has its entry among the first five or uses no more CPU time, by
      delta, than each of the five. */
  lemma TopDominates(
    previous: seq<ProcessSnapshot>, current: seq<ProcessSnapshot>, totals: Totals,
    sorted: seq<ProcessInfo>, now: ProcessSnapshot, i: nat, winner: ProcessSnapshot)
    requires totals.Usable() && Descending(sorted) && multiset(sorted) == multiset(Usages(previous, current, totals))
    requires now in current && Eligible(previous, now)
    requires i < TOP_COUNT && i < |sorted|
    requires Eligible(previous, winner) && sorted[i] == InfoOf(previous, winner, totals)
    ensures InfoOf(previous, now, totals) in sorted[..if |sorted| < TOP_COUNT then |sorted| else TOP_COUNT]
            || CpuDelta(previous, now) <= CpuDelta(previous, winner)
  {
    var info := InfoOf(previous, now, totals);
    EligibleIsListed(previous, current, totals, now);
    assert info in multiset(sorted);
    var k :| 0 <= k < |sorted| && sorted[k] == info;
    if k < TOP_COUNT {
      var top := sorted[..if |sorted| < TOP_COUNT then |sorted| else TOP_COUNT];
      assert top[k] == info;
    } else {
      UsageOrdersByDelta(CpuDelta(previous, now), CpuDelta(previous, winner), totals);
    }
  }

  lemma {:induction false} EligibleIsListed(
    previous: seq<ProcessSnapshot>, current: seq<ProcessSnapshot>, totals: Totals, now: ProcessSnapshot)
    requires totals.Usable() && now in current && Eligible(previous, now)
    ensures InfoOf(previous, now, totals) in Usages(previous, current, totals)
  {
    var last := |current| - 1;
    if current[last] != now {
      assert current == current[..last] + [current[last]];
      EligibleIsListed(previous, current[..last], totals, now);
    }
  }

  /** And nothing is made up: every entry belongs to an eligible current process. */
  lemma {:induction false} ListedIsEligible(
    previous: seq<ProcessSnapshot>, current: seq<ProcessSnapshot>, totals: Totals, info: ProcessInfo)
    returns (now: ProcessSnapshot)
    requires totals.Usable() && info in Usages(previous, current, totals)
    ensures now in current && Eligible(previous, now) && info == InfoOf(previous, now, totals)
  {
    var last := |current| - 1;
    if info in Usages(previous, current[..last], totals) {
      now := ListedIsEligible(previous, current[..last], totals, info);
    } else {
      now := current[last];
    }
  }
}
