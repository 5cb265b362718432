/** Alert state per host and metric: src/alert/AlertManager.cpp over src/alert/AlertEvaluator.cpp.
    The model does what the code does: the time of first detection is kept for ever, a pending
    alert is not cleared when its cause goes away, and every update looks at the alerts of all
    hosts, so that an update from one host resolves the firing alerts of the others. */
module Alerts {
  import opened Wrappers
  import opened Clock
  import opened Metrics
  import Decimal

  datatype Level = Warning | Critical

  datatype AlertState = Normal | Pending | Firing

  datatype Alert = Alert(
    hostname: string, metric: string, level: Level, currentValue: real, threshold: real, message: string)

  datatype ManagedAlert = ManagedAlert(
    hostname: string, metric: string, level: Level, state: AlertState, currentValue: real, threshold: real,
    message: string, firstDetected: int, lastUpdate: int)

  const DISK_CRITICAL_THRESHOLD := 90.0

  /** The fire duration is in seconds. */
  datatype Settings = Settings(fireDuration: int, cpuThreshold: real, memoryThreshold: real)

  // ---------------------------------------------------------------------------
  // Evaluation
  // ---------------------------------------------------------------------------

  function Evaluate(m: SystemMetrics, settings: Settings): seq<Alert> {
    (if m.cpuUsagePercent.Value() >= settings.cpuThreshold then
       [Alert(m.hostname, "cpu", Warning, m.cpuUsagePercent.Value(), settings.cpuThreshold,
              "CPU usage exceeded warning threshold")]
     else [])
    + (if m.memoryUsagePercent.Value() >= settings.memoryThreshold then
         [Alert(m.hostname, "memory", Warning, m.memoryUsagePercent.Value(), settings.memoryThreshold,
                "Memory usage exceeded warning threshold")]
       else [])
    + (if m.diskUsagePercent.Value() >= DISK_CRITICAL_THRESHOLD then
         [Alert(m.hostname, "disk", Critical, m.diskUsagePercent.Value(), DISK_CRITICAL_THRESHOLD,
                "Disk usage exceeded critical threshold")]
       else [])
  }

  function MakeKey(hostname: string, metric: string): string {
    hostname + "_" + metric
  }

  function KeyOf(a: Alert): string {
    MakeKey(a.hostname, a.metric)
  }

  /** Keys of metrics without an underscore determine host and metric, whatever the host is called. */
  lemma MakeKeyIsInjective(h1: string, m1: string, h2: string, m2: string)
    requires '_' !in m1 && '_' !in m2 && MakeKey(h1, m1) == MakeKey(h2, m2)
    ensures h1 == h2 && m1 == m2
  {
    var key := MakeKey(h1, m1);
    LastUnderscore(h1, m1);
    LastUnderscore(h2, m2);
    assert key[..|h1|] == h1 && key[..|h2|] == h2;
    assert key[|h1| + 1..] == m1 && key[|h2| + 1..] == m2;
  }

  lemma LastUnderscore(hostname: string, metric: string)
    requires '_' !in metric
    ensures var key := MakeKey(hostname, metric);
            key[|hostname|] == '_' && forall i :: |hostname| < i < |key| ==> key[i] != '_'
  {
    var key := MakeKey(hostname, metric);
    forall i | |hostname| < i < |key|
      ensures key[i] != '_'
    {
      assert key[i] == metric[i - |hostname| - 1];
    }
  }

  ghost predicate DistinctKeys(raw: seq<Alert>) {
    forall i, j :: 0 <= i < j < |raw| ==> KeyOf(raw[i]) != KeyOf(raw[j])
  }

  lemma EvaluationKeys(m: SystemMetrics, settings: Settings)
    ensures var raw := Evaluate(m, settings);
            && DistinctKeys(raw)
            && forall a <- raw :: a.hostname == m.hostname && '_' !in a.metric
  {
    var raw := Evaluate(m, settings);
    assert "cpu"[0] != "memory"[0] && "disk"[0] != "cpu"[0];
    forall i, j | 0 <= i < j < |raw|
      ensures KeyOf(raw[i]) != KeyOf(raw[j])
    {
      assert raw[i].metric != raw[j].metric;
      if KeyOf(raw[i]) == KeyOf(raw[j]) {
        MakeKeyIsInjective(raw[i].hostname, raw[i].metric, raw[j].hostname, raw[j].metric);
      }
    }
  }

  // ---------------------------------------------------------------------------
  // One update, as a function
  // ---------------------------------------------------------------------------

  /** `duration_cast<seconds>`, which rounds towards zero. */
  function WholeSeconds(nanoseconds: int): int {
    if nanoseconds >= 0 then nanoseconds / SECOND else -(-nanoseconds / SECOND)
  }

  type Table = map<string, ManagedAlert>

  function NewAlert(a: Alert, now: int): ManagedAlert {
    ManagedAlert(a.hostname, a.metric, a.level, Pending, a.currentValue, a.threshold, a.message, now, now)
  }

  predicate Ripe(prior: ManagedAlert, now: int, fireDuration: int) {
    WholeSeconds(now - prior.firstDetected) >= fireDuration
  }

  /** The record of an alert that is raised again. */
  function Again(prior: ManagedAlert, a: Alert, now: int, fireDuration: int): ManagedAlert {
    prior.(currentValue := a.currentValue, lastUpdate := now,
         state := if Ripe(prior, now, fireDuration) then Firing else prior.state)
  }

  datatype Update = Update(table: Table, fired: seq<ManagedAlert>)

  function RaiseOne(u: Update, a: Alert, now: int, fireDuration: int): Update {
    var key := KeyOf(a);
    if key !in u.table then
      Update(u.table[key := NewAlert(a, now)], u.fired)
    else
      var managed := Again(u.table[key], a, now, fireDuration);
      Update(u.table[key := managed],
             u.fired + if managed.state == Firing && u.table[key].state != Firing then [managed] else [])
  }

  function RaiseAll(u: Update, raw: seq<Alert>, now: int, fireDuration: int): Update {
    if raw == [] then u
    else RaiseOne(RaiseAll(u, raw[..|raw| - 1], now, fireDuration), raw[|raw| - 1], now, fireDuration)
  }

  function Keys(raw: seq<Alert>): set<string> {
    set a <- raw :: KeyOf(a)
  }

  function Resolve(prior: ManagedAlert): ManagedAlert {
    if prior.state == Firing then prior.(state := Normal) else prior
  }

  function ResolveOthers(table: Table, keys: set<string>): Table {
    map key <- table :: if key in keys then table[key] else Resolve(table[key])
  }

  function UpdateSpec(table: Table, m: SystemMetrics, now: int, settings: Settings): Update {
    var raw := Evaluate(m, settings);
    var raised := RaiseAll(Update(table, []), raw, now, settings.fireDuration);
    Update(ResolveOthers(raised.table, Keys(raw)), raised.fired)
  }

  // ---------------------------------------------------------------------------
  // The manager
  // ---------------------------------------------------------------------------

  lemma RaiseOneMore(u: Update, raw: seq<Alert>, i: nat, now: int, fireDuration: int)
    requires i < |raw|
    ensures RaiseAll(u, raw[..i + 1], now, fireDuration)
            == RaiseOne(RaiseAll(u, raw[..i], now, fireDuration), raw[i], now, fireDuration)
    ensures Keys(raw[..i + 1]) == Keys(raw[..i]) + {KeyOf(raw[i])}
  {
    hide RaiseOne, KeyOf;
    assert raw[..i + 1][..i] == raw[..i];
    assert raw[..i + 1] == raw[..i] + [raw[i]];
  }

  function ActiveKeys(table: Table): set<string> {
    set key <- table | table[key].state != Normal
  }

  class AlertManager {
    const settings: Settings
    var alerts: Table

    constructor (settings: Settings)
      ensures this.settings == settings && alerts == map[]
    {
      this.settings := settings;
      alerts := map[];
    }

    /** `update`: the first loop raises, the second resolves; firings are returned in order. */
    method DoUpdate(m: SystemMetrics, now: int) returns (result: seq<ManagedAlert>)
      modifies this`alerts
      ensures Update(alerts, result) == UpdateSpec(old(alerts), m, now, settings)
    {
      result := [];
      var rawAlerts := Evaluate(m, settings);
      var currentAlertKeys: set<string> := {};
      for i := 0 to |rawAlerts|
        invariant Update(alerts, result)
                  == RaiseAll(Update(old(alerts), []), rawAlerts[..i], now, settings.fireDuration)
        invariant currentAlertKeys == Keys(rawAlerts[..i])
      {
        var alert := rawAlerts[i];
        var key := KeyOf(alert);
        RaiseOneMore(Update(old(alerts), []), rawAlerts, i, now, settings.fireDuration);
        hide RaiseAll, Keys, Evaluate, KeyOf, WholeSeconds;
        currentAlertKeys := currentAlertKeys + {key};
        if key !in alerts {
          alerts := alerts[key := NewAlert(alert, now)];
        } else {
          var managed := alerts[key].(currentValue := alert.currentValue, lastUpdate := now);
          var duration := WholeSeconds(now - managed.firstDetected);
          if duration >= settings.fireDuration && managed.state != Firing {
            managed := managed.(state := Firing);
            result := result + [managed];
          }
          alerts := alerts[key := managed];
        }
      }
      assert rawAlerts[..|rawAlerts|] == rawAlerts;
      ResolveLoop(currentAlertKeys);
    }

    /** The resolve loop, over the alerts of every host, in whatever order the table has. */
    method ResolveLoop(currentAlertKeys: set<string>)
      modifies this`alerts
      ensures alerts == ResolveOthers(old(alerts), currentAlertKeys)
    {
      var left := alerts.Keys;
      while left != {}
        invariant left <= alerts.Keys == old(alerts).Keys
        invariant forall key <- alerts ::
                    alerts[key] == if key in left || key in currentAlertKeys then old(alerts)[key]
                                   else Resolve(old(alerts)[key])
        decreases |left|
      {
        var key :| key in left;
        left := left - {key};
        if key !in currentAlertKeys {
          if alerts[key].state == Firing {
            alerts := alerts[key := alerts[key].(state := Normal)];
          }
        }
      }
    }

    /** `getActiveAlerts`: every alert that is not Normal, in some order. */
    method GetActiveAlerts() returns (result: seq<ManagedAlert>)
      ensures |result| == |ActiveKeys(alerts)|
      ensures forall a :: a in result <==> exists key :: key in alerts && alerts[key] == a && a.state != Normal
    {
      result := [];
      var left := alerts.Keys;
      assert ActiveKeys(alerts) * left == ActiveKeys(alerts);
      while left != {}
        invariant left <= alerts.Keys && |result| + |ActiveKeys(alerts) * left| == |ActiveKeys(alerts)|
        invariant forall a ::
                    a in result
                    <==> exists key :: key in alerts && key !in left && alerts[key] == a && a.state != Normal
        decreases |left|
      {
        var key :| key in left;
        ghost var active := ActiveKeys(alerts) * left;
        left := left - {key};
        assert ActiveKeys(alerts) * left == active - {key};
        if alerts[key].state != Normal {
          result := result + [alerts[key]];
        }
      }
    }
  }

  // ---------------------------------------------------------------------------
  // What an update does to one key
  // ---------------------------------------------------------------------------

  function Lookup(table: Table, key: string): Option<ManagedAlert> {
    if key in table then Some(table[key]) else None
  }

  /** The alert raised under a key by an evaluation, if any. */
  function RaisedAt(raw: seq<Alert>, key: string): Option<Alert> {
    if raw == [] then None
    else if KeyOf(raw[|raw| - 1]) == key then Some(raw[|raw| - 1])
    else RaisedAt(raw[..|raw| - 1], key)
  }

  function KeyAfter(prior: Option<ManagedAlert>, raised: Option<Alert>, now: int, fireDuration: int)
    : Option<ManagedAlert>
  {
    match (prior, raised)
    case (None, None) => None
    case (None, Some(a)) => Some(NewAlert(a, now))
    case (Some(r), Some(a)) => Some(Again(r, a, now, fireDuration))
    case (Some(r), None) => Some(Resolve(r))
  }

  predicate FiresNow(before: Option<ManagedAlert>, after: Option<ManagedAlert>) {
    before.Some? && before.value.state != Firing && after.Some? && after.value.state == Firing
  }

  predicate ResolvesNow(before: Option<ManagedAlert>, after: Option<ManagedAlert>) {
    before.Some? && before.value.state == Firing && after.Some? && after.value.state == Normal
  }

  lemma {:induction false} RaisedAtIs(raw: seq<Alert>, key: string)
    ensures RaisedAt(raw, key).Some? <==> key in Keys(raw)
    ensures RaisedAt(raw, key).Some? ==> RaisedAt(raw, key).value in raw && KeyOf(RaisedAt(raw, key).value) == key
  {
    if raw != [] {
      RaisedAtIs(raw[..|raw| - 1], key);
      assert raw == raw[..|raw| - 1] + [raw[|raw| - 1]];
    }
  }

  lemma RaisedOnce(raw: seq<Alert>, key: string)
    requires raw != [] && DistinctKeys(raw)
    ensures KeyOf(raw[|raw| - 1]) == key ==> RaisedAt(raw[..|raw| - 1], key).None?
  {
    RaisedAtIs(raw[..|raw| - 1], key);
  }

  lemma {:induction false} RaiseAllAt(table: Table, raw: seq<Alert>, now: int, fireDuration: int, key: string)
    requires DistinctKeys(raw)
    ensures var u := RaiseAll(Update(table, []), raw, now, fireDuration);
            Lookup(u.table, key) ==
              match RaisedAt(raw, key)
              case None => Lookup(table, key)
              case Some(a) => KeyAfter(Lookup(table, key), Some(a), now, fireDuration)
  {
    if raw != [] {
      var last := |raw| - 1;
      RaiseAllAt(table, raw[..last], now, fireDuration, key);
      RaisedOnce(raw, key);
    }
  }

  /** Per key: absent until first raised, then a record that remembers that moment for ever. */
  lemma UpdateAt(table: Table, m: SystemMetrics, now: int, settings: Settings, key: string)
    ensures Lookup(UpdateSpec(table, m, now, settings).table, key)
            == KeyAfter(Lookup(table, key), RaisedAt(Evaluate(m, settings), key), now, settings.fireDuration)
  {
    hide Evaluate;
    var raw := Evaluate(m, settings);
    EvaluationKeys(m, settings);
    RaiseAllAt(table, raw, now, settings.fireDuration, key);
    RaisedAtIs(raw, key);
  }

  /** The records after an update belong to the hosts of the records before it, or to the host of
      the snapshot. */
  lemma UpdateHosts(table: Table, m: SystemMetrics, now: int, settings: Settings, key: string)
    requires key in UpdateSpec(table, m, now, settings).table
    ensures var hostname := UpdateSpec(table, m, now, settings).table[key].hostname;
            hostname == m.hostname || (key in table && hostname == table[key].hostname)
  {
    hide Evaluate, UpdateSpec;
    UpdateAt(table, m, now, settings, key);
    EvaluationKeys(m, settings);
    RaisedAtIs(Evaluate(m, settings), key);
  }

  // ---------------------------------------------------------------------------
  // Whole runs
  // ---------------------------------------------------------------------------

  /** One call of `update`: the snapshot and the clock reading. */
  datatype Sample = Sample(metrics: SystemMetrics, now: int)

  datatype Event = Fire | ResolveEvent

  function Run(samples: seq<Sample>, settings: Settings): Table
    decreases |samples|, 1
  {
    if samples == [] then map[] else LastUpdate(samples, settings).table
  }

  function LastUpdate(samples: seq<Sample>, settings: Settings): Update
    requires samples != []
    decreases |samples|, 0
  {
    var last := samples[|samples| - 1];
    UpdateSpec(Run(samples[..|samples| - 1], settings), last.metrics, last.now, settings)
  }

  function StateOf(samples: seq<Sample>, settings: Settings, key: string): Option<ManagedAlert> {
    Lookup(Run(samples, settings), key)
  }

  /** Whether the last update of a run raises an alert under key. */
  function RaisedLast(samples: seq<Sample>, settings: Settings, key: string): Option<Alert>
    requires samples != []
  {
    RaisedAt(Evaluate(samples[|samples| - 1].metrics, settings), key)
  }

  lemma LastStep(samples: seq<Sample>, settings: Settings, key: string)
    requires samples != []
    ensures StateOf(samples, settings, key)
            == KeyAfter(StateOf(samples[..|samples| - 1], settings, key), RaisedLast(samples, settings, key),
                        samples[|samples| - 1].now, settings.fireDuration)
  {
    hide UpdateSpec, KeyAfter, Lookup, RaisedAt;
    var last := samples[|samples| - 1];
    var before := Run(samples[..|samples| - 1], settings);
    assert LastUpdate(samples, settings) == UpdateSpec(before, last.metrics, last.now, settings);
    assert Run(samples, settings) == LastUpdate(samples, settings).table;
    UpdateAt(before, last.metrics, last.now, settings, key);
  }

  /** The only transitions of a key. */
  predicate Allowed(before: Option<ManagedAlert>, after: Option<ManagedAlert>) {
    match (before, after)
    case (None, None) => true
    case (None, Some(b)) => b.state == Pending
    case (Some(a), Some(b)) =>
      || a.state == b.state
      || (a.state == Pending && b.state == Firing)
      || (a.state == Firing && b.state == Normal)
      || (a.state == Normal && b.state == Firing)
    case (Some(_), None) => false
  }

  lemma OnlyTheseTransitions(samples: seq<Sample>, settings: Settings, key: string)
    requires samples != []
    ensures Allowed(StateOf(samples[..|samples| - 1], settings, key), StateOf(samples, settings, key))
  {
    LastStep(samples, settings, key);
    hide Run, Evaluate, RaisedAt;
  }

  ghost predicate Ordered(samples: seq<Sample>) {
    forall i, j :: 0 <= i < j < |samples| ==> samples[i].now <= samples[j].now
  }

  /** Sample i is the first of the run to raise key. */
  ghost predicate FirstRaisedAt(samples: seq<Sample>, settings: Settings, key: string, i: nat) {
    && i < |samples|
    && RaisedAt(Evaluate(samples[i].metrics, settings), key).Some?
    && forall j :: 0 <= j < i ==> RaisedAt(Evaluate(samples[j].metrics, settings), key).None?
  }

  /** A key has a record exactly if it was ever raised, and the record keeps the first time. */
  lemma {:induction false} FirstDetectionIsKept(samples: seq<Sample>, settings: Settings, key: string)
    ensures match StateOf(samples, settings, key)
            case None => forall i :: 0 <= i < |samples| ==> RaisedAt(Evaluate(samples[i].metrics, settings), key).None?
            case Some(r) =>
              exists i: nat :: FirstRaisedAt(samples, settings, key, i) && r.firstDetected == samples[i].now
  {
    hide Evaluate, RaisedAt, KeyOf;
    if samples != [] {
      var before, last := samples[..|samples| - 1], |samples| - 1;
      FirstDetectionIsKept(before, settings, key);
      LastStep(samples, settings, key);
      hide Run;
      var r := StateOf(before, settings, key);
      if r.Some? {
        var i: nat :| FirstRaisedAt(before, settings, key, i) && r.value.firstDetected == before[i].now;
        assert FirstRaisedAt(samples, settings, key, i);
      } else if RaisedLast(samples, settings, key).Some? {
        assert FirstRaisedAt(samples, settings, key, last);
      }
    }
  }

  /** A key does not fire on the sample that first raises it, nor before the fire duration has
      passed since that sample. */
  lemma NeverFiresEarly(samples: seq<Sample>, settings: Settings, key: string)
    requires samples != []
    requires FiresNow(StateOf(samples[..|samples| - 1], settings, key), StateOf(samples, settings, key))
    ensures exists i: nat :: FirstRaisedAt(samples, settings, key, i) && i < |samples| - 1
                        && WholeSeconds(samples[|samples| - 1].now - samples[i].now) >= settings.fireDuration
  {
    hide Evaluate, RaisedAt, WholeSeconds;
    var before := samples[..|samples| - 1];
    FirstDetectionIsKept(before, settings, key);
    LastStep(samples, settings, key);
    hide Run;
    var r := StateOf(before, settings, key);
    var i: nat :| FirstRaisedAt(before, settings, key, i) && r.value.firstDetected == before[i].now;
    assert FirstRaisedAt(samples, settings, key, i);
  }

  /** Exactly when a key fires: the sample raises it, it has a record that is not firing, and the
      fire duration has passed since the sample that first raised it, whatever came in between. */
  lemma FiresExactlyWhen(samples: seq<Sample>, settings: Settings, key: string)
    requires samples != []
    ensures var before, last := StateOf(samples[..|samples| - 1], settings, key), |samples| - 1;
            FiresNow(before, StateOf(samples, settings, key))
            <==> && RaisedLast(samples, settings, key).Some?
                 && before.Some? && before.value.state != Firing
                 && exists i: nat :: i < last && FirstRaisedAt(samples, settings, key, i)
                                && WholeSeconds(samples[last].now - samples[i].now) >= settings.fireDuration
  {
    hide Evaluate, RaisedAt, WholeSeconds;
    var before, last := samples[..|samples| - 1], |samples| - 1;
    FirstDetectionIsKept(before, settings, key);
    LastStep(samples, settings, key);
    hide Run;
    var r := StateOf(before, settings, key);
    if r.Some? {
      var i: nat :| FirstRaisedAt(before, settings, key, i) && r.value.firstDetected == before[i].now;
      assert FirstRaisedAt(samples, settings, key, i);
    }
  }

  const EXAMPLE_SETTINGS := Settings(5, 80.0, 90.0)

  function LoadOf(percent: nat): SystemMetrics {
    DEFAULT_METRICS.(hostname := "h", cpuUsagePercent := Decimal.Double(false, percent as real))
  }

  /** One excess, none, and one again ten seconds after the first. */
  function BriefExcesses(): seq<Sample> {
    [Sample(LoadOf(95), 0), Sample(LoadOf(10), SECOND), Sample(LoadOf(95), 10 * SECOND)]
  }

  lemma LoadRaises(percent: nat)
    ensures RaisedAt(Evaluate(LoadOf(percent), EXAMPLE_SETTINGS), "h_cpu").Some? <==> percent >= 80
  {
    var raw := Evaluate(LoadOf(percent), EXAMPLE_SETTINGS);
    assert LoadOf(percent).cpuUsagePercent.Value() == percent as real;
    if percent >= 80 {
      assert |raw| == 1 && KeyOf(raw[0]) == "h_cpu";
    } else {
      assert raw == [];
    }
  }

  /** So an alert can fire without any lasting excess: here the sample before the firing does not
      raise the key. */
  lemma BriefExcessesFire()
    ensures var samples := BriefExcesses();
            && Ordered(samples)
            && RaisedLast(samples[..2], EXAMPLE_SETTINGS, "h_cpu").None?
            && FiresNow(StateOf(samples[..2], EXAMPLE_SETTINGS, "h_cpu"), StateOf(samples, EXAMPLE_SETTINGS, "h_cpu"))
  {
    hide Evaluate, RaisedAt, Run;
    var samples, key := BriefExcesses(), "h_cpu";
    LoadRaises(95);
    LoadRaises(10);
    assert samples[..1][..0] == [] && samples[..2][..1] == samples[..1];
    NothingAtFirst(EXAMPLE_SETTINGS, key);
    LastStep(samples[..1], EXAMPLE_SETTINGS, key);
    LastStep(samples[..2], EXAMPLE_SETTINGS, key);
    LastStep(samples, EXAMPLE_SETTINGS, key);
    assert StateOf(samples[..1], EXAMPLE_SETTINGS, key).value.firstDetected == 0;
  }

  lemma NothingAtFirst(settings: Settings, key: string)
    ensures StateOf([], settings, key) == None
  {
  }

  /** On a clock that does not go back, whole seconds are seconds. */
  lemma WholeSecondsAreSeconds(elapsed: nat, seconds: nat)
    ensures WholeSeconds(elapsed) >= seconds <==> elapsed >= seconds * SECOND
  {
  }

  /** Before the first detection, on a clock set back, the seconds are negative. */
  lemma WholeSecondsTruncate(elapsed: int)
    ensures WholeSeconds(-elapsed) == -WholeSeconds(elapsed)
  {
  }

  lemma WholeSecondsMonotone(a: int, b: int)
    requires a <= b
    ensures WholeSeconds(a) <= WholeSeconds(b)
  {
  }

  ghost predicate HasFired(r: ManagedAlert) {
    r.state != Pending
  }

  lemma {:induction false} FiredStaysRipe(samples: seq<Sample>, settings: Settings, key: string)
    requires samples != [] && Ordered(samples)
    ensures var r := StateOf(samples, settings, key);
            r.Some? && HasFired(r.value) ==> Ripe(r.value, samples[|samples| - 1].now, settings.fireDuration)
  {
    hide Evaluate, RaisedAt, WholeSeconds;
    var before := samples[..|samples| - 1];
    LastStep(samples, settings, key);
    var r := StateOf(before, settings, key);
    if before != [] && r.Some? && HasFired(r.value) {
      FiredStaysRipe(before, settings, key);
      WholeSecondsMonotone(before[|before| - 1].now - r.value.firstDetected,
                           samples[|samples| - 1].now - r.value.firstDetected);
    }
  }

  /** Once a key has fired, after any update at all, from whichever host, it is firing exactly if
      that update raised it. */
  lemma FiringFollowsTheEvaluator(samples: seq<Sample>, settings: Settings, key: string)
    requires samples != [] && Ordered(samples)
    requires var r := StateOf(samples[..|samples| - 1], settings, key); r.Some? && HasFired(r.value)
    ensures StateOf(samples, settings, key).Some?
    ensures StateOf(samples, settings, key).value.state == Firing <==> RaisedLast(samples, settings, key).Some?
  {
    hide Evaluate, RaisedAt, WholeSeconds;
    var before := samples[..|samples| - 1];
    LastStep(samples, settings, key);
    var r := StateOf(before, settings, key);
    if before != [] {
      FiredStaysRipe(before, settings, key);
      WholeSecondsMonotone(before[|before| - 1].now - r.value.firstDetected,
                           samples[|samples| - 1].now - r.value.firstDetected);
    }
  }

  // ---------------------------------------------------------------------------
  // In terms of the snapshots
  // ---------------------------------------------------------------------------

  /** The percentage a metric name stands for. */
  function Reading(m: SystemMetrics, metric: string): real {
    if metric == "cpu" then m.cpuUsagePercent.Value()
    else if metric == "memory" then m.memoryUsagePercent.Value()
    else m.diskUsagePercent.Value()
  }

  function ThresholdOf(settings: Settings, metric: string): real {
    if metric == "cpu" then settings.cpuThreshold
    else if metric == "memory" then settings.memoryThreshold
    else 90.0
  }

  function LevelOf(metric: string): Level {
    if metric == "disk" then Critical else Warning
  }

  function MessageOf(metric: string): string {
    if metric == "cpu" then "CPU usage exceeded warning threshold"
    else if metric == "memory" then "Memory usage exceeded warning threshold"
    else "Disk usage exceeded critical threshold"
  }

  predicate Watched(metric: string) {
    metric == "cpu" || metric == "memory" || metric == "disk"
  }

  /** The snapshot is of that host, and the percentage has reached its threshold. */
  predicate Exceeds(m: SystemMetrics, settings: Settings, hostname: string, metric: string) {
    hostname == m.hostname && Watched(metric) && Reading(m, metric) >= ThresholdOf(settings, metric)
  }

  function AlertFor(m: SystemMetrics, settings: Settings, metric: string): Alert {
    Alert(m.hostname, metric, LevelOf(metric), Reading(m, metric), ThresholdOf(settings, metric), MessageOf(metric))
  }

  lemma EvaluationIs(m: SystemMetrics, settings: Settings, a: Alert)
    ensures a in Evaluate(m, settings)
            <==> Exceeds(m, settings, a.hostname, a.metric) && a == AlertFor(m, settings, a.metric)
  {
    assert "cpu" != "memory" && "memory" != "disk" && "cpu" != "disk" by {
      assert "cpu"[0] == 'c' && "memory"[0] == 'm' && "disk"[0] == 'd';
    }
  }

  /** An evaluation raises the key of a host and a metric exactly if the snapshot is of that host and the
      percentage of that metric has reached its threshold; and then with these contents. */
  lemma RaisesExactly(m: SystemMetrics, settings: Settings, hostname: string, metric: string)
    requires '_' !in metric
    ensures RaisedAt(Evaluate(m, settings), MakeKey(hostname, metric))
            == if Exceeds(m, settings, hostname, metric) then Some(AlertFor(m, settings, metric)) else None
  {
    var raw, key := Evaluate(m, settings), MakeKey(hostname, metric);
    RaisedAtIs(raw, key);
    EvaluationKeys(m, settings);
    EvaluationIs(m, settings, AlertFor(m, settings, metric));
    hide Evaluate, MakeKey, Exceeds, RaisedAt, Reading, ThresholdOf, LevelOf, MessageOf;
    if Exceeds(m, settings, hostname, metric) {
      ExceedsIsWatched(m, settings, hostname, metric);
      assert KeyOf(AlertFor(m, settings, metric)) == key;
    }
    var raised := RaisedAt(raw, key);
    if raised.Some? {
      EvaluationIs(m, settings, raised.value);
      MakeKeyIsInjective(raised.value.hostname, raised.value.metric, hostname, metric);
    }
  }

  /** Sample i is the first of the run in which the metric of that host has reached its threshold. */
  ghost predicate FirstExceededAt(
    samples: seq<Sample>, settings: Settings, hostname: string, metric: string, i: nat)
  {
    && i < |samples| && Exceeds(samples[i].metrics, settings, hostname, metric)
    && forall j :: 0 <= j < i ==> !Exceeds(samples[j].metrics, settings, hostname, metric)
  }

  /** Sample i is the last one. */
  ghost predicate LastExceededAt(
    samples: seq<Sample>, settings: Settings, hostname: string, metric: string, i: nat)
  {
    && i < |samples| && Exceeds(samples[i].metrics, settings, hostname, metric)
    && forall j :: i < j < |samples| ==> !Exceeds(samples[j].metrics, settings, hostname, metric)
  }

  lemma FirstRaiseIsFirstExcess(
    samples: seq<Sample>, settings: Settings, hostname: string, metric: string, i: nat)
    requires '_' !in metric
    ensures FirstRaisedAt(samples, settings, MakeKey(hostname, metric), i)
            <==> FirstExceededAt(samples, settings, hostname, metric, i)
  {
    hide Evaluate, RaisedAt, MakeKey, Exceeds, AlertFor;
    forall j | 0 <= j < |samples|
      ensures RaisedAt(Evaluate(samples[j].metrics, settings), MakeKey(hostname, metric)).Some?
              <==> Exceeds(samples[j].metrics, settings, hostname, metric)
    {
      RaisesExactly(samples[j].metrics, settings, hostname, metric);
    }
  }

  /** Exactly when the alert of a host and a metric fires: the last sample exceeds the threshold, the
      alert is known and not firing, and the fire duration has passed since the first excess. */
  lemma FiresOnExcessExactly(samples: seq<Sample>, settings: Settings, hostname: string, metric: string)
    requires samples != [] && '_' !in metric
    ensures var key, last := MakeKey(hostname, metric), |samples| - 1;
            var before := StateOf(samples[..last], settings, key);
            FiresNow(before, StateOf(samples, settings, key))
            <==> && Exceeds(samples[last].metrics, settings, hostname, metric)
                 && before.Some? && before.value.state != Firing
                 && exists i: nat :: i < last && FirstExceededAt(samples, settings, hostname, metric, i)
                                && WholeSeconds(samples[last].now - samples[i].now) >= settings.fireDuration
  {
    hide Evaluate, RaisedAt, MakeKey, Exceeds, AlertFor, FirstRaisedAt, FirstExceededAt, WholeSeconds, Run, FiresNow;
    var key, last := MakeKey(hostname, metric), |samples| - 1;
    FiresExactlyWhen(samples, settings, key);
    RaisesExactly(samples[last].metrics, settings, hostname, metric);
    forall i: nat | i < last
      ensures FirstRaisedAt(samples, settings, key, i) <==> FirstExceededAt(samples, settings, hostname, metric, i)
    {
      FirstRaiseIsFirstExcess(samples, settings, hostname, metric, i);
    }
  }

  /** Once it has fired, it is firing after any update exactly if that snapshot exceeds the threshold. */
  lemma FiringIsExcess(samples: seq<Sample>, settings: Settings, hostname: string, metric: string)
    requires samples != [] && Ordered(samples) && '_' !in metric
    requires var r := StateOf(samples[..|samples| - 1], settings, MakeKey(hostname, metric));
             r.Some? && HasFired(r.value)
    ensures var r := StateOf(samples, settings, MakeKey(hostname, metric));
            r.Some?
            && (r.value.state == Firing <==> Exceeds(samples[|samples| - 1].metrics, settings, hostname, metric))
  {
    hide Evaluate, RaisedAt, MakeKey, Exceeds, AlertFor, Run;
    FiringFollowsTheEvaluator(samples, settings, MakeKey(hostname, metric));
    RaisesExactly(samples[|samples| - 1].metrics, settings, hostname, metric);
  }

  /** The record of an alert, from the last sample that exceeded the threshold. */
  ghost predicate Carries(r: ManagedAlert, samples: seq<Sample>, settings: Settings, hostname: string, metric: string) {
    && r.hostname == hostname && r.metric == metric && Watched(metric)
    && r.level == LevelOf(metric) && r.threshold == ThresholdOf(settings, metric) && r.message == MessageOf(metric)
    && exists i: nat :: LastExceededAt(samples, settings, hostname, metric, i)
                   && r.currentValue == Reading(samples[i].metrics, metric) && r.lastUpdate == samples[i].now
  }

  /** Every record carries its own host and metric, the level, threshold and message of the metric, and
      the percentage and time of the last sample that exceeded the threshold. */
  lemma {:induction false} RecordCarries(samples: seq<Sample>, settings: Settings, hostname: string, metric: string)
    requires '_' !in metric
    ensures var r := StateOf(samples, settings, MakeKey(hostname, metric));
            r.Some? ==> Carries(r.value, samples, settings, hostname, metric)
  {
    hide Evaluate, RaisedAt, MakeKey, Exceeds, Reading, ThresholdOf, LevelOf, MessageOf, WholeSeconds, Run;
    var key := MakeKey(hostname, metric);
    if samples == [] {
      NothingAtFirst(settings, key);
    } else {
      var before, last := samples[..|samples| - 1], |samples| - 1;
      RecordCarries(before, settings, hostname, metric);
      LastStep(samples, settings, key);
      RaisesExactly(samples[last].metrics, settings, hostname, metric);
      if Exceeds(samples[last].metrics, settings, hostname, metric) {
        assert Watched(metric) && hostname == samples[last].metrics.hostname by {
          ExceedsIsWatched(samples[last].metrics, settings, hostname, metric);
        }
        assert LastExceededAt(samples, settings, hostname, metric, last);
      } else if StateOf(before, settings, key).Some? {
        var r := StateOf(before, settings, key).value;
        var i: nat :| LastExceededAt(before, settings, hostname, metric, i)
                      && r.currentValue == Reading(before[i].metrics, metric) && r.lastUpdate == before[i].now;
        assert LastExceededAt(samples, settings, hostname, metric, i);
      }
    }
  }

  lemma ExceedsIsWatched(m: SystemMetrics, settings: Settings, hostname: string, metric: string)
    requires Exceeds(m, settings, hostname, metric)
    ensures Watched(metric) && hostname == m.hostname
  {
  }

  // ---------------------------------------------------------------------------
  // Edges
  // ---------------------------------------------------------------------------

  /** Every record is filed under its own host and metric. */
  ghost predicate OwnKeys(table: Table) {
    forall key <- table :: MakeKey(table[key].hostname, table[key].metric) == key && '_' !in table[key].metric
  }

  function CountFired(fired: seq<ManagedAlert>, key: string): nat {
    if fired == [] then 0
    else CountFired(fired[..|fired| - 1], key)
         + if MakeKey(fired[|fired| - 1].hostname, fired[|fired| - 1].metric) == key then 1 else 0
  }

  lemma RaiseOneReports(u: Update, a: Alert, now: int, fireDuration: int, key: string)
    requires OwnKeys(u.table) && '_' !in a.metric
    ensures var v := RaiseOne(u, a, now, fireDuration);
            && OwnKeys(v.table)
            && CountFired(v.fired, key)
               == CountFired(u.fired, key) + if FiresNow(Lookup(u.table, key), Lookup(v.table, key)) then 1 else 0
  {
    hide MakeKey, WholeSeconds;
    var v := RaiseOne(u, a, now, fireDuration);
    if v.fired != u.fired {
      assert v.fired[..|v.fired| - 1] == u.fired;
    }
  }

  lemma {:induction false} RaiseAllReports(table: Table, raw: seq<Alert>, now: int, fireDuration: int, key: string)
    requires OwnKeys(table) && DistinctKeys(raw) && forall a <- raw :: '_' !in a.metric
    ensures var u := RaiseAll(Update(table, []), raw, now, fireDuration);
            && OwnKeys(u.table)
            && CountFired(u.fired, key) == if FiresNow(Lookup(table, key), Lookup(u.table, key)) then 1 else 0
  {
    hide KeyOf, OwnKeys;
    if raw != [] {
      var last := |raw| - 1;
      RaiseAllReports(table, raw[..last], now, fireDuration, key);
      var before := RaiseAll(Update(table, []), raw[..last], now, fireDuration);
      RaiseOneReports(before, raw[last], now, fireDuration, key);
      RaiseAllAt(table, raw[..last], now, fireDuration, key);
      RaisedOnce(raw, key);
    }
  }

  /** The list returned by an update names a key once if the key fires in that update, and not
      otherwise. */
  lemma UpdateReports(table: Table, m: SystemMetrics, now: int, settings: Settings, key: string)
    requires OwnKeys(table)
    ensures var u := UpdateSpec(table, m, now, settings);
            && OwnKeys(u.table)
            && CountFired(u.fired, key) == if FiresNow(Lookup(table, key), Lookup(u.table, key)) then 1 else 0
  {
    hide Evaluate, MakeKey, CountFired, KeyOf;
    var raw := Evaluate(m, settings);
    EvaluationKeys(m, settings);
    RaiseAllReports(table, raw, now, settings.fireDuration, key);
    RaiseAllAt(table, raw, now, settings.fireDuration, key);
    RaisedAtIs(raw, key);
  }

  lemma {:induction false} RecordsStayUnderTheirKeys(samples: seq<Sample>, settings: Settings)
    ensures OwnKeys(Run(samples, settings))
  {
    if samples != [] {
      var last := samples[|samples| - 1];
      RecordsStayUnderTheirKeys(samples[..|samples| - 1], settings);
      hide OwnKeys, UpdateSpec;
      UpdateReports(Run(samples[..|samples| - 1], settings), last.metrics, last.now, settings, "");
    }
  }

  /** The firings returned and the resolutions logged for one key, in order. */
  function Events(samples: seq<Sample>, settings: Settings, key: string): seq<Event> {
    if samples == [] then []
    else
      var before := samples[..|samples| - 1];
      Events(before, settings, key)
      + (if CountFired(LastUpdate(samples, settings).fired, key) > 0 then [Fire] else [])
      + (if ResolvesNow(StateOf(before, settings, key), StateOf(samples, settings, key)) then [ResolveEvent] else [])
  }

  ghost predicate Alternating(events: seq<Event>) {
    forall i :: 0 <= i < |events| ==> (events[i] == Fire <==> i % 2 == 0)
  }

  /** What the events of a key say about its state. */
  ghost predicate EventsMatch(events: seq<Event>, r: Option<ManagedAlert>) {
    && Alternating(events)
    && (r.Some? && r.value.state == Firing <==> events != [] && events[|events| - 1] == Fire)
    && (r.None? || r.value.state == Pending ==> events == [])
  }

  lemma EventsStep(events: seq<Event>, before: Option<ManagedAlert>, after: Option<ManagedAlert>)
    requires EventsMatch(events, before) && Allowed(before, after)
    ensures EventsMatch(
              events + (if FiresNow(before, after) then [Fire] else [])
              + (if ResolvesNow(before, after) then [ResolveEvent] else []), after)
  {
  }

  lemma {:induction false} RaisedAreRecords(table: Table, raw: seq<Alert>, now: int, fireDuration: int, a: ManagedAlert)
    requires OwnKeys(table) && DistinctKeys(raw) && forall b <- raw :: '_' !in b.metric
    requires a in RaiseAll(Update(table, []), raw, now, fireDuration).fired
    ensures var u, key := RaiseAll(Update(table, []), raw, now, fireDuration), MakeKey(a.hostname, a.metric);
            key in Keys(raw) && key in u.table && u.table[key] == a && a.state == Firing
  {
    hide KeyOf, MakeKey, WholeSeconds;
    if raw != [] {
      var last := |raw| - 1;
      var before := RaiseAll(Update(table, []), raw[..last], now, fireDuration);
      RaiseAllReports(table, raw[..last], now, fireDuration, "");
      assert raw == raw[..last] + [raw[last]];
      if a in before.fired {
        RaisedAreRecords(table, raw[..last], now, fireDuration, a);
        RaisedAtIs(raw[..last], KeyOf(raw[last]));
      }
    }
  }

  /** What an update returns are records of the table it leaves, firing. */
  lemma ReportsAreRecords(samples: seq<Sample>, settings: Settings, a: ManagedAlert)
    requires samples != [] && a in LastUpdate(samples, settings).fired
    ensures StateOf(samples, settings, MakeKey(a.hostname, a.metric)) == Some(a) && a.state == Firing
  {
    var before, last := Run(samples[..|samples| - 1], settings), samples[|samples| - 1];
    RecordsStayUnderTheirKeys(samples[..|samples| - 1], settings);
    EvaluationKeys(last.metrics, settings);
    assert Run(samples, settings) == UpdateSpec(before, last.metrics, last.now, settings).table;
    hide Run, Evaluate, MakeKey, RaiseAll, Keys, OwnKeys, DistinctKeys;
    RaisedAreRecords(before, Evaluate(last.metrics, settings), last.now, settings.fireDuration, a);
  }

  /** Firings and resolutions of a key alternate, a firing first, and the key is firing exactly if
      the last of them was a firing. */
  lemma {:induction false} EdgesAlternate(samples: seq<Sample>, settings: Settings, key: string)
    ensures EventsMatch(Events(samples, settings, key), StateOf(samples, settings, key))
  {
    if samples != [] {
      var before, last := samples[..|samples| - 1], samples[|samples| - 1];
      EdgesAlternate(before, settings, key);
      OnlyTheseTransitions(samples, settings, key);
      RecordsStayUnderTheirKeys(before, settings);
      hide UpdateSpec, CountFired, OwnKeys, EventsMatch, Allowed, FiresNow, ResolvesNow;
      UpdateReports(Run(before, settings), last.metrics, last.now, settings, key);
      EventsStep(Events(before, settings, key), StateOf(before, settings, key), StateOf(samples, settings, key));
    }
  }

  /** What an update from another host does to a record: it changes nothing, or resolves it. */
  lemma OtherHostsResolve(samples: seq<Sample>, settings: Settings, key: string)
    requires samples != []
    requires var r := StateOf(samples[..|samples| - 1], settings, key);
             r.Some? && r.value.hostname != samples[|samples| - 1].metrics.hostname
    ensures var before, after := StateOf(samples[..|samples| - 1], settings, key), StateOf(samples, settings, key);
            && after == Some(Resolve(before.value))
            && (after == before <==> before.value.state != Firing)
  {
    hide Evaluate;
    var before, last := samples[..|samples| - 1], samples[|samples| - 1];
    var raw := Evaluate(last.metrics, settings);
    LastStep(samples, settings, key);
    RecordsStayUnderTheirKeys(before, settings);
    EvaluationKeys(last.metrics, settings);
    RaisedAtIs(raw, key);
    hide Run;
    var r := StateOf(before, settings, key).value;
    if RaisedAt(raw, key).Some? {
      var a := RaisedAt(raw, key).value;
      MakeKeyIsInjective(a.hostname, a.metric, r.hostname, r.metric);
    }
  }
  /** A firing alert of one host, and a quiet snapshot of another. */
  function FiringThenOther(): seq<Sample> {
    BriefExcesses() + [Sample(LoadOf(10).(hostname := "g"), 11 * SECOND)]
  }

  lemma OtherComesLast()
    ensures var samples := FiringThenOther();
            |samples| == 4 && samples[..3] == BriefExcesses() && samples[3].metrics.hostname == "g" && Ordered(samples)
  {
    assert FiringThenOther()[..3] == BriefExcesses();
  }

  /** So hosts are not isolated: the quiet host resolves the alert of the other. */
  lemma QuietHostResolvesOther()
    ensures var samples := FiringThenOther();
            var before := StateOf(samples[..3], EXAMPLE_SETTINGS, "h_cpu");
            var after := StateOf(samples, EXAMPLE_SETTINGS, "h_cpu");
            && Ordered(samples)
            && before.Some? && before.value.state == Firing && before.value.hostname == "h"
            && after.Some? && after.value.state == Normal
  {
    hide Run, Evaluate, BriefExcesses, FiringThenOther, Ordered;
    var samples := FiringThenOther();
    OtherComesLast();
    BriefExcessesFire();
    KeyTellsHost(samples[..3], EXAMPLE_SETTINGS, "h", "cpu");
    assert MakeKey("h", "cpu") == "h_cpu";
    OtherHostsResolve(samples, EXAMPLE_SETTINGS, "h_cpu");
  }

  lemma KeyTellsHost(samples: seq<Sample>, settings: Settings, hostname: string, metric: string)
    requires '_' !in metric
    ensures var r := StateOf(samples, settings, MakeKey(hostname, metric));
            r.Some? ==> r.value.hostname == hostname && r.value.metric == metric
  {
    RecordsStayUnderTheirKeys(samples, settings);
    hide Run, MakeKey;
    var r := StateOf(samples, settings, MakeKey(hostname, metric));
    if r.Some? {
      MakeKeyIsInjective(r.value.hostname, r.value.metric, hostname, metric);
    }
  }
}
