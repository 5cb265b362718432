/** The server's per-host stores: src/store/MetricsHistoryStore.cpp, src/store/MetricsStore.cpp and
    src/store/StateTracker.cpp. Each lock guards a whole call, so a call is one step. */
module Stores {
  import opened Wrappers
  import opened Clock
  import opened Metrics

  // ---------------------------------------------------------------------------
  // History
  // ---------------------------------------------------------------------------

  datatype Point = Point(timestampMs: int, cpuUsagePercent: real, memoryUsagePercent: real)

  datatype Addition = Addition(hostname: string, point: Point)

  type Histories = map<string, seq<Point>>

  function HistoryOf(histories: Histories, hostname: string): seq<Point> {
    if hostname in histories then histories[hostname] else []
  }

  function LastOf(points: seq<Point>, n: nat): seq<Point> {
    if |points| <= n then points else points[|points| - n..]
  }

  /** The newest n points, in order; all of them if there are fewer. */
  lemma LastOfIsNewest(points: seq<Point>, n: nat)
    ensures |LastOf(points, n)| == if |points| < n then |points| else n
    ensures forall i :: 0 <= i < |LastOf(points, n)| ==>
              LastOf(points, n)[i] == points[|points| - |LastOf(points, n)| + i]
  {
  }

  function AddTo(histories: Histories, a: Addition, max: nat): Histories {
    if a.hostname == "" then histories
    else histories[a.hostname := LastOf(HistoryOf(histories, a.hostname) + [a.point], max)]
  }

  function Replay(log: seq<Addition>, max: nat): Histories {
    if log == [] then map[] else AddTo(Replay(log[..|log| - 1], max), log[|log| - 1], max)
  }

  class MetricsHistoryStore {
    const maxPointsPerHost: nat
    var histories: Histories
    ghost var log: seq<Addition>

    ghost predicate Valid()
      reads this
    {
      maxPointsPerHost > 0 && histories == Replay(log, maxPointsPerHost)
    }

    constructor (maxPointsPerHost: nat)
      ensures Valid() && log == []
      ensures this.maxPointsPerHost == if maxPointsPerHost == 0 then 1 else maxPointsPerHost
    {
      this.maxPointsPerHost := if maxPointsPerHost == 0 then 1 else maxPointsPerHost;
      histories, log := map[], [];
    }

    method Add(hostname: string, point: Point)
      requires Valid()
      modifies this
      ensures Valid() && log == old(log) + [Addition(hostname, point)]
    {
      log := log + [Addition(hostname, point)];
      assert log[..|log| - 1] == old(log);
      if hostname == "" {
        return;
      }
      var history := (if hostname in histories then histories[hostname] else []) + [point];
      ghost var all := history;
      while |history| > maxPointsPerHost
        invariant LastOf(history, maxPointsPerHost) == LastOf(all, maxPointsPerHost)
      {
        history := history[1..];
      }
      histories := histories[hostname := history];
    }

    method Get(hostname: string) returns (points: seq<Point>)
      requires Valid()
      ensures points == LastOf(PointsOf(log, hostname), maxPointsPerHost)
    {
      HistoryIsMostRecent(log, maxPointsPerHost, hostname);
      if hostname !in histories {
        return [];
      }
      return histories[hostname];
    }
  }

  /** The points ever added for a host. The empty name is no host. */
  function PointsOf(log: seq<Addition>, hostname: string): seq<Point> {
    if log == [] || hostname == "" then []
    else
      var last := log[|log| - 1];
      PointsOf(log[..|log| - 1], hostname) + if last.hostname == hostname then [last.point] else []
  }

  /** Over every run, the history of a host is the last points of that host's own log, whatever was
      added for other hosts in between; a host has a history exactly if something was added. */
  lemma {:induction false} HistoryIsMostRecent(log: seq<Addition>, max: nat, hostname: string)
    requires max > 0
    ensures HistoryOf(Replay(log, max), hostname) == LastOf(PointsOf(log, hostname), max)
    ensures hostname in Replay(log, max) <==> PointsOf(log, hostname) != []
  {
    if log != [] {
      hide LastOf;
      var before, last := log[..|log| - 1], log[|log| - 1];
      HistoryIsMostRecent(before, max, hostname);
      if last.hostname == hostname {
        LastOfOneMore(PointsOf(before, hostname), last.point, max);
      } else {
        assert PointsOf(log, hostname) == PointsOf(before, hostname);
      }
    } else {
      LastOfNothing(max);
    }
  }

  lemma LastOfOneMore(points: seq<Point>, point: Point, max: nat)
    requires max > 0
    ensures LastOf(LastOf(points, max) + [point], max) == LastOf(points + [point], max)
  {
  }

  lemma LastOfNothing(max: nat)
    ensures LastOf([], max) == []
  {
  }

  // ---------------------------------------------------------------------------
  // Latest metrics and liveness
  // ---------------------------------------------------------------------------

  datatype HostStatus = Online | Stale | Offline

  datatype StoredMetrics = StoredMetrics(metrics: SystemMetrics, updatedAt: int)

  datatype StoreError = EmptyHostname

  /** In seconds. */
  const ONLINE_THRESHOLD := 5
  const STALE_THRESHOLD := 15

  /** `getStatus`: the age is cut down to whole seconds before it is compared. */
  function GetStatus(updatedAt: int, now: int): HostStatus {
    if updatedAt > now then Online
    else
      var age := (now - updatedAt) / SECOND;
      if age <= ONLINE_THRESHOLD then Online
      else if age <= STALE_THRESHOLD then Stale
      else Offline
  }

  /** The thresholds as the header documents them: at most 5 seconds, at most 15 seconds. */
  function DocumentedStatus(updatedAt: int, now: int): HostStatus {
    if now - updatedAt <= ONLINE_THRESHOLD * SECOND then Online
    else if now - updatedAt <= STALE_THRESHOLD * SECOND then Stale
    else Offline
  }

  /** The code agrees with the documentation except during the sixth and the sixteenth second. */
  lemma StatusLagsTheDocumentation(updatedAt: int, now: int)
    ensures GetStatus(updatedAt, now) == DocumentedStatus(updatedAt, now)
            <==> !(5 * SECOND < now - updatedAt < 6 * SECOND) && !(15 * SECOND < now - updatedAt < 16 * SECOND)
  {
  }

  function Rank(s: HostStatus): nat {
    match s case Online => 0 case Stale => 1 case Offline => 2
  }

  /** Without an update a host never looks more alive as time goes by. */
  lemma StatusOnlyDegrades(updatedAt: int, now: int, later: int)
    requires now <= later
    ensures Rank(GetStatus(updatedAt, now)) <= Rank(GetStatus(updatedAt, later))
  {
  }

  class MetricsStore {
    var metricsByHostname: map<string, StoredMetrics>

    ghost predicate Valid()
      reads this
    {
      forall h <- metricsByHostname :: h != "" && metricsByHostname[h].metrics.hostname == h
    }

    constructor ()
      ensures Valid() && metricsByHostname == map[]
    {
      metricsByHostname := map[];
    }

    method Update(metrics: SystemMetrics, now: int) returns (r: Result<(), StoreError>)
      requires Valid()
      modifies this
      ensures Valid()
      ensures r.Failure? <==> metrics.hostname == ""
      ensures metricsByHostname == if r.Failure? then old(metricsByHostname)
                                   else old(metricsByHostname)[metrics.hostname := StoredMetrics(metrics, now)]
    {
      if metrics.hostname == "" {
        return Failure(EmptyHostname);
      }
      metricsByHostname := metricsByHostname[metrics.hostname := StoredMetrics(metrics, now)];
      return Success(());
    }

    /** `getAll`: every record, once, in some order. */
    method GetAll() returns (result: seq<StoredMetrics>)
      requires Valid()
      ensures |result| == |metricsByHostname|
      ensures forall i, j :: 0 <= i < j < |result| ==> result[i].metrics.hostname != result[j].metrics.hostname
      ensures forall h <- metricsByHostname :: metricsByHostname[h] in result
      ensures forall r <- result ::
                r.metrics.hostname in metricsByHostname && metricsByHostname[r.metrics.hostname] == r
    {
      result := [];
      var left := metricsByHostname.Keys;
      while left != {}
        invariant left <= metricsByHostname.Keys && |result| + |left| == |metricsByHostname|
        invariant forall i, j :: 0 <= i < j < |result| ==> result[i].metrics.hostname != result[j].metrics.hostname
        invariant forall h <- metricsByHostname :: h in left || metricsByHostname[h] in result
        invariant forall r <- result ::
                    var h := r.metrics.hostname; h in metricsByHostname && h !in left && metricsByHostname[h] == r
        decreases |left|
      {
        var h :| h in left;
        left := left - {h};
        result := result + [metricsByHostname[h]];
      }
    }
  }

  // ---------------------------------------------------------------------------
  // State changes
  // ---------------------------------------------------------------------------

  datatype Report = Report(hostname: string, status: HostStatus)

  datatype StateChange = StateChange(changed: bool, oldStatus: HostStatus, newStatus: HostStatus)

  type States = map<string, HostStatus>

  function ChangeOf(states: States, r: Report): StateChange {
    if r.hostname !in states then StateChange(true, Offline, r.status)
    else StateChange(states[r.hostname] != r.status, states[r.hostname], r.status)
  }

  function Track(reports: seq<Report>): States {
    if reports == [] then map[]
    else Track(reports[..|reports| - 1])[reports[|reports| - 1].hostname := reports[|reports| - 1].status]
  }

  /** The changes announced for one host over a run. */
  function ChangesOf(reports: seq<Report>, hostname: string): seq<StateChange> {
    if reports == [] then []
    else
      var before, last := reports[..|reports| - 1], reports[|reports| - 1];
      var change := ChangeOf(Track(before), last);
      ChangesOf(before, hostname) + if last.hostname == hostname && change.changed then [change] else []
  }

  class StateTracker {
    var lastStates: States
    ghost var reports: seq<Report>

    ghost predicate Valid()
      reads this
    {
      lastStates == Track(reports)
    }

    constructor ()
      ensures Valid() && reports == []
    {
      lastStates, reports := map[], [];
    }

    method Update(hostname: string, currentStatus: HostStatus) returns (result: StateChange)
      requires Valid()
      modifies this
      ensures Valid() && reports == old(reports) + [Report(hostname, currentStatus)]
      ensures result == ChangeOf(Track(old(reports)), Report(hostname, currentStatus))
    {
      reports := reports + [Report(hostname, currentStatus)];
      assert reports[..|reports| - 1] == old(reports);
      if hostname !in lastStates {
        lastStates := lastStates[hostname := currentStatus];
        return StateChange(true, Offline, currentStatus);
      }
      result := StateChange(false, lastStates[hostname], currentStatus);
      if lastStates[hostname] != currentStatus {
        result := result.(changed := true);
        lastStates := lastStates[hostname := currentStatus];
      }
    }
  }

  /** Changes follow on from each other, from Offline; only the first may be no change at all. */
  ghost predicate Chained(changes: seq<StateChange>) {
    && (changes != [] ==> changes[0].oldStatus == Offline)
    && (forall i :: 0 < i < |changes| ==>
          changes[i].oldStatus == changes[i - 1].newStatus && changes[i].oldStatus != changes[i].newStatus)
  }

  /** Replaying the announced changes of a host ends in the status stored for it. */
  lemma {:induction false} ChangesChain(reports: seq<Report>, hostname: string)
    ensures var changes := ChangesOf(reports, hostname);
            && Chained(changes)
            && (hostname in Track(reports) <==> changes != [])
            && (changes != [] ==> Track(reports)[hostname] == changes[|changes| - 1].newStatus)
  {
    if reports != [] {
      ChangesChain(reports[..|reports| - 1], hostname);
    }
  }
}
