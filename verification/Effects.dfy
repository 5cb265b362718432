/** What the server does with each message, in every interleaving: the history, the alerts, the store
    and the tracker are what their calls make of them, and each accepted message makes each call
    once, in this order, with its own contents. */
module Effects {
  import opened Wrappers
  import opened Metrics
  import opened Deserializer
  import opened Stores
  import Alerts
  import P = ThreadPool
  import Pipeline

  type State = Pipeline.State
  type Entry = Pipeline.Entry
  type Announcement = Pipeline.Announcement

  // ---------------------------------------------------------------------------
  // What the calls amount to
  // ---------------------------------------------------------------------------

  function AdditionOf(e: Entry): Addition {
    Addition(e.metrics.hostname,
             Point(e.now / 1_000_000, e.metrics.cpuUsagePercent.Value(), e.metrics.memoryUsagePercent.Value()))
  }

  function Additions(log: seq<Entry>): (additions: seq<Addition>)
    ensures |additions| == |log|
  {
    seq(|log|, i requires 0 <= i < |log| => AdditionOf(log[i]))
  }

  function Samples(log: seq<Entry>): (samples: seq<Alerts.Sample>)
    ensures |samples| == |log|
  {
    seq(|log|, i requires 0 <= i < |log| => Alerts.Sample(log[i].metrics, log[i].now))
  }

  function RecordOf(e: Entry): StoredMetrics {
    StoredMetrics(e.metrics, e.now)
  }

  /** Each host's record is that of its last entry. */
  function StoreAfter(log: seq<Entry>): map<string, StoredMetrics> {
    if log == [] then map[]
    else StoreAfter(log[..|log| - 1])[log[|log| - 1].metrics.hostname := RecordOf(log[|log| - 1])]
  }

  function ReportOf(a: Announcement): Report {
    match a
    case ByWorker(_, hostname) => Report(hostname, Online)
    case ByTimer(record, now) => Report(record.metrics.hostname, GetStatus(record.updatedAt, now))
  }

  function Reports(log: seq<Announcement>): (reports: seq<Report>)
    ensures |reports| == |log|
  {
    seq(|log|, i requires 0 <= i < |log| => ReportOf(log[i]))
  }

  /** The stores hold what their calls amount to. */
  ghost predicate HistoriesInv(env: Pipeline.Env, s: State) {
    s.histories == Replay(Additions(s.logs.recorded), env.historyMax)
  }

  ghost predicate AlertsInv(env: Pipeline.Env, s: State) {
    s.alerts == Alerts.Run(Samples(s.logs.evaluated), env.settings)
  }

  ghost predicate StoreInv(s: State) {
    s.stored == StoreAfter(s.logs.kept)
  }

  ghost predicate TrackerInv(s: State) {
    s.tracked == Track(Reports(s.logs.reported))
  }

  lemma OneMoreAddition(log: seq<Entry>, e: Entry, max: nat)
    ensures Replay(Additions(log + [e]), max) == AddTo(Replay(Additions(log), max), AdditionOf(e), max)
  {
    hide AdditionOf, AddTo;
    assert Additions(log + [e])[..|log|] == Additions(log);
  }

  lemma OneMoreSample(log: seq<Entry>, e: Entry, settings: Alerts.Settings)
    ensures Alerts.Run(Samples(log + [e]), settings)
            == Alerts.UpdateSpec(Alerts.Run(Samples(log), settings), e.metrics, e.now, settings).table
  {
    hide Alerts.UpdateSpec;
    var samples := Samples(log + [e]);
    assert samples[..|log|] == Samples(log);
    assert Alerts.Run(samples, settings) == Alerts.LastUpdate(samples, settings).table;
  }

  lemma OneMoreRecord(log: seq<Entry>, e: Entry)
    ensures StoreAfter(log + [e]) == StoreAfter(log)[e.metrics.hostname := RecordOf(e)]
  {
    hide RecordOf;
    assert (log + [e])[..|log|] == log;
  }

  lemma OneMoreReport(log: seq<Announcement>, a: Announcement)
    ensures Track(Reports(log + [a])) == Track(Reports(log))[ReportOf(a).hostname := ReportOf(a).status]
  {
    hide ReportOf;
    assert Reports(log + [a])[..|log|] == Reports(log);
  }

  // ---------------------------------------------------------------------------
  // What one step does
  // ---------------------------------------------------------------------------

  function EntryOf(s: State, w: nat, now: int): Entry
    requires w < |s.stages| && Pipeline.Carries(s.stages[w]) && w < |s.pool.workers| && s.pool.workers[w].Running?
  {
    Pipeline.Entry(s.pool.workers[w].task, s.stages[w].metrics, now)
  }

  lemma WorkOnHistory(env: Pipeline.Env, s: State, w: nat, now: int)
    requires Pipeline.Busy(s, w)
    ensures var t := Pipeline.WorkStep(env, s, w, now);
            if s.stages[w].Parsed? then
              && t.logs.recorded == s.logs.recorded + [EntryOf(s, w, now)]
              && t.histories == AddTo(s.histories, AdditionOf(EntryOf(s, w, now)), env.historyMax)
            else t.logs.recorded == s.logs.recorded && t.histories == s.histories
  {
    hide AddTo, Alerts.UpdateSpec, Interpret;
  }

  lemma WorkOnAlerts(env: Pipeline.Env, s: State, w: nat, now: int)
    requires Pipeline.Busy(s, w)
    ensures var t := Pipeline.WorkStep(env, s, w, now);
            if s.stages[w].Recorded? then
              && t.logs.evaluated == s.logs.evaluated + [EntryOf(s, w, now)]
              && t.alerts == Alerts.UpdateSpec(s.alerts, s.stages[w].metrics, now, env.settings).table
            else t.logs.evaluated == s.logs.evaluated && t.alerts == s.alerts
  {
    hide AddTo, Alerts.UpdateSpec, Interpret, Pipeline.PointAt;
  }

  lemma WorkOnStore(env: Pipeline.Env, s: State, w: nat, now: int)
    requires Pipeline.Busy(s, w)
    ensures var t := Pipeline.WorkStep(env, s, w, now);
            if s.stages[w].Evaluated? && s.stages[w].metrics.hostname != "" then
              && t.logs.kept == s.logs.kept + [EntryOf(s, w, now)]
              && t.stored == s.stored[s.stages[w].metrics.hostname := RecordOf(EntryOf(s, w, now))]
            else t.logs.kept == s.logs.kept && t.stored == s.stored
  {
    hide AddTo, Alerts.UpdateSpec, Interpret, Pipeline.PointAt;
  }

  lemma WorkOnTracker(env: Pipeline.Env, s: State, w: nat, now: int)
    requires Pipeline.Busy(s, w)
    ensures var t := Pipeline.WorkStep(env, s, w, now);
            if s.stages[w].Kept? then
              var a := Pipeline.ByWorker(s.pool.workers[w].task, s.stages[w].hostname);
              && t.logs.reported == s.logs.reported + [a]
              && t.tracked == s.tracked[s.stages[w].hostname := Online]
            else t.logs.reported == s.logs.reported && t.tracked == s.tracked
  {
    hide AddTo, Alerts.UpdateSpec, Interpret, Pipeline.PointAt;
  }

  lemma WorkKeepsRest(env: Pipeline.Env, s: State, w: nat, now: int)
    requires Pipeline.Busy(s, w)
    ensures var t := Pipeline.WorkStep(env, s, w, now);
            t.messages == s.messages && t.completed == s.completed && t.pool == s.pool && t.scan == s.scan
  {
    hide AddTo, Alerts.UpdateSpec, Interpret, Pipeline.PointAt;
    match s.stages[w]
    case Fresh =>
    case Evaluated(_) =>
    case _ =>
  }

  /** Steps that are not a worker's leave history, alerts and store alone. */
  lemma OtherStepsKeepStores(env: Pipeline.Env, s: State, a: Pipeline.Action)
    requires Pipeline.Enabled(s, a) && !a.Work?
    ensures var t := Pipeline.Apply(env, s, a);
            && t.histories == s.histories && t.alerts == s.alerts && t.stored == s.stored
            && t.logs.recorded == s.logs.recorded && t.logs.evaluated == s.logs.evaluated && t.logs.kept == s.logs.kept
  {
    hide P.Apply, P.Enabled, P.Accepts, Pipeline.WorkStep, GetStatus, Pipeline.Busy, Pipeline.IsSnapshot;
    match a
    case Deliver(_) =>
    case PoolStep(_) =>
    case FinishTask(_) =>
    case _ =>
  }

  lemma OtherStepsKeepReports(env: Pipeline.Env, s: State, a: Pipeline.Action)
    requires Pipeline.Enabled(s, a) && !a.Work? && !a.TimerReports?
    ensures var t := Pipeline.Apply(env, s, a); t.tracked == s.tracked && t.logs.reported == s.logs.reported
  {
    hide P.Apply, P.Enabled, Pipeline.WorkStep, Pipeline.Busy, Pipeline.IsSnapshot;
    match a
    case Deliver(_) =>
    case PoolStep(_) =>
    case FinishTask(_) =>
    case _ =>
  }

  lemma MessagesOnlyGrow(env: Pipeline.Env, s: State, a: Pipeline.Action)
    requires Pipeline.Enabled(s, a) && !a.Work?
    ensures s.messages <= Pipeline.Apply(env, s, a).messages
  {
    hide P.Apply, P.Enabled, P.Accepts, Pipeline.WorkStep, GetStatus, Pipeline.Busy, Pipeline.IsSnapshot;
    match a
    case Deliver(message) => assert Pipeline.Apply(env, s, a).messages == s.messages + [message];
    case PoolStep(_) =>
    case FinishTask(_) =>
    case _ =>
  }

  lemma OtherStepsTouchNothing(env: Pipeline.Env, s: State, a: Pipeline.Action)
    requires Pipeline.Enabled(s, a) && !a.Work?
    ensures var t := Pipeline.Apply(env, s, a);
            && t.histories == s.histories && t.alerts == s.alerts && t.stored == s.stored
            && t.logs.recorded == s.logs.recorded && t.logs.evaluated == s.logs.evaluated && t.logs.kept == s.logs.kept
            && s.messages <= t.messages
            && (!a.TimerReports? ==> t.tracked == s.tracked && t.logs.reported == s.logs.reported)
  {
    hide Pipeline.Enabled, Pipeline.Apply;
    OtherStepsKeepStores(env, s, a);
    MessagesOnlyGrow(env, s, a);
    if !a.TimerReports? {
      OtherStepsKeepReports(env, s, a);
    }
  }

  lemma TimerReport(env: Pipeline.Env, s: State, now: int)
    requires Pipeline.Enabled(s, Pipeline.TimerReports(now))
    ensures var t, r := Pipeline.Apply(env, s, Pipeline.TimerReports(now)), s.scan[0];
            && t.logs.reported == s.logs.reported + [Pipeline.ByTimer(r, now)]
            && t.tracked == s.tracked[r.metrics.hostname := GetStatus(r.updatedAt, now)]
            && t.scan == s.scan[1..]
  {
    hide GetStatus;
  }

  // ---------------------------------------------------------------------------
  // The stores follow their calls
  // ---------------------------------------------------------------------------

  ghost predicate StoresInv(env: Pipeline.Env, s: State) {
    HistoriesInv(env, s) && AlertsInv(env, s) && StoreInv(s) && TrackerInv(s)
  }

  lemma HistoriesAtWork(env: Pipeline.Env, s: State, w: nat, now: int)
    requires HistoriesInv(env, s) && Pipeline.Busy(s, w)
    ensures HistoriesInv(env, Pipeline.WorkStep(env, s, w, now))
  {
    WorkOnHistory(env, s, w, now);
    hide Pipeline.WorkStep, Additions, Replay, AddTo, AdditionOf;
    if s.stages[w].Parsed? {
      OneMoreAddition(s.logs.recorded, EntryOf(s, w, now), env.historyMax);
    }
  }

  lemma AlertsAtWork(env: Pipeline.Env, s: State, w: nat, now: int)
    requires AlertsInv(env, s) && Pipeline.Busy(s, w)
    ensures AlertsInv(env, Pipeline.WorkStep(env, s, w, now))
  {
    WorkOnAlerts(env, s, w, now);
    hide Pipeline.WorkStep, Samples, Alerts.Run, Alerts.UpdateSpec;
    if s.stages[w].Recorded? {
      OneMoreSample(s.logs.evaluated, EntryOf(s, w, now), env.settings);
    }
  }

  lemma StoreAtWork(env: Pipeline.Env, s: State, w: nat, now: int)
    requires StoreInv(s) && Pipeline.Busy(s, w)
    ensures StoreInv(Pipeline.WorkStep(env, s, w, now))
  {
    WorkOnStore(env, s, w, now);
    hide Pipeline.WorkStep, StoreAfter, RecordOf;
    if s.stages[w].Evaluated? {
      OneMoreRecord(s.logs.kept, EntryOf(s, w, now));
    }
  }

  lemma TrackerAtWork(env: Pipeline.Env, s: State, w: nat, now: int)
    requires TrackerInv(s) && Pipeline.Busy(s, w)
    ensures TrackerInv(Pipeline.WorkStep(env, s, w, now))
  {
    WorkOnTracker(env, s, w, now);
    hide Pipeline.WorkStep, Reports, Track;
    if s.stages[w].Kept? {
      OneMoreReport(s.logs.reported, Pipeline.ByWorker(s.pool.workers[w].task, s.stages[w].hostname));
    }
  }

  lemma StepStores(env: Pipeline.Env, s: State, a: Pipeline.Action)
    requires StoresInv(env, s) && Pipeline.Enabled(s, a)
    ensures StoresInv(env, Pipeline.Apply(env, s, a))
  {
    match a {
      case Work(w, now) =>
        HistoriesAtWork(env, s, w, now);
        AlertsAtWork(env, s, w, now);
        StoreAtWork(env, s, w, now);
        TrackerAtWork(env, s, w, now);
        hide Pipeline.WorkStep, HistoriesInv, AlertsInv, StoreInv, TrackerInv;
      case TimerReports(now) =>
        OtherStepsTouchNothing(env, s, a);
        TimerReport(env, s, now);
        OneMoreReport(s.logs.reported, Pipeline.ByTimer(s.scan[0], now));
        hide Pipeline.Apply, Track, Reports, GetStatus;
      case _ =>
        OtherStepsTouchNothing(env, s, a);
        hide Pipeline.Apply, Pipeline.Enabled;
    }
  }

  // ---------------------------------------------------------------------------
  // With the contents of the messages
  // ---------------------------------------------------------------------------

  /** The entry carries what the parser made of its message. */
  ghost predicate Right(env: Pipeline.Env, messages: seq<string>, e: Entry) {
    e.id < |messages| && Interpret(env.lib, messages[e.id]) == Success(e.metrics)
  }

  ghost predicate FromKept(kept: seq<Entry>, r: StoredMetrics) {
    exists e <- kept :: RecordOf(e) == r
  }

  /** A worker reports the host its message names; the timer reports what the store has held. */
  ghost predicate RightReport(env: Pipeline.Env, messages: seq<string>, kept: seq<Entry>, a: Announcement) {
    match a
    case ByWorker(id, hostname) =>
      && id < |messages| && Interpret(env.lib, messages[id]).Success?
      && Interpret(env.lib, messages[id]).value.hostname == hostname
    case ByTimer(record, _) => FromKept(kept, record)
  }

  ghost predicate AllRight(env: Pipeline.Env, messages: seq<string>, log: seq<Entry>) {
    forall e <- log :: Right(env, messages, e)
  }

  ghost predicate EntriesInv(env: Pipeline.Env, s: State) {
    && AllRight(env, s.messages, s.logs.recorded)
    && AllRight(env, s.messages, s.logs.evaluated)
    && AllRight(env, s.messages, s.logs.kept)
    && (forall a <- s.logs.reported :: RightReport(env, s.messages, s.logs.kept, a))
    && (forall r <- s.scan :: FromKept(s.logs.kept, r))
  }

  lemma AllRightGrows(env: Pipeline.Env, before: seq<string>, after: seq<string>, log: seq<Entry>)
    requires before <= after && AllRight(env, before, log)
    ensures AllRight(env, after, log)
  {
    hide Interpret;
    forall e <- log
      ensures Right(env, after, e)
    {
      assert Right(env, before, e);
    }
  }

  lemma ReportStaysRight(
    env: Pipeline.Env, before: seq<string>, after: seq<string>, kept: seq<Entry>, more: seq<Entry>, a: Announcement)
    requires before <= after && RightReport(env, before, kept, a)
    ensures RightReport(env, after, kept + more, a)
  {
    hide Interpret;
  }

  lemma {:induction false} StoredIsKept(log: seq<Entry>, h: string)
    requires h in StoreAfter(log)
    ensures FromKept(log, StoreAfter(log)[h])
  {
    hide RecordOf;
    var last := |log| - 1;
    assert log == log[..last] + [log[last]];
    if log[last].metrics.hostname != h {
      StoredIsKept(log[..last], h);
    }
  }

  lemma WorkersEntryIsRight(env: Pipeline.Env, s: State, w: nat, now: int)
    requires Pipeline.WorkersTell(env, s) && Pipeline.Busy(s, w)
    ensures Pipeline.Carries(s.stages[w]) ==> Right(env, s.messages, EntryOf(s, w, now))
    ensures s.stages[w].Kept? ==>
              RightReport(env, s.messages, s.logs.kept, Pipeline.ByWorker(s.pool.workers[w].task, s.stages[w].hostname))
  {
    hide Interpret;
    assert Pipeline.Tells(env, s, s.stages[w], s.messages[s.pool.workers[w].task]);
  }

  lemma StepEntriesAtWork(env: Pipeline.Env, s: State, w: nat, now: int)
    requires Pipeline.WorkersTell(env, s) && EntriesInv(env, s) && Pipeline.Busy(s, w)
    ensures EntriesInv(env, Pipeline.WorkStep(env, s, w, now))
  {
    var t := Pipeline.WorkStep(env, s, w, now);
    WorkersEntryIsRight(env, s, w, now);
    WorkOnHistory(env, s, w, now);
    WorkOnAlerts(env, s, w, now);
    WorkOnStore(env, s, w, now);
    WorkOnTracker(env, s, w, now);
    WorkKeepsRest(env, s, w, now);
    hide Pipeline.WorkStep, Pipeline.WorkersTell, Pipeline.Busy, Right, RightReport, AddTo;
    var more := if |t.logs.kept| > |s.logs.kept| then [EntryOf(s, w, now)] else [];
    assert t.logs.kept == s.logs.kept + more;
    forall a <- t.logs.reported
      ensures RightReport(env, t.messages, t.logs.kept, a)
    {
      ReportStaysRight(env, s.messages, t.messages, s.logs.kept, more, a);
    }
  }

  lemma StepEntries(env: Pipeline.Env, s: State, a: Pipeline.Action)
    requires Pipeline.WorkersTell(env, s) && StoreInv(s) && EntriesInv(env, s) && Pipeline.Enabled(s, a)
    ensures EntriesInv(env, Pipeline.Apply(env, s, a))
  {
    if a.Work? {
      StepEntriesAtWork(env, s, a.worker, a.now);
    } else {
      var t := Pipeline.Apply(env, s, a);
      OtherStepsTouchNothing(env, s, a);
      StepScan(env, s, a);
      AllRightGrows(env, s.messages, t.messages, s.logs.recorded);
      AllRightGrows(env, s.messages, t.messages, s.logs.evaluated);
      AllRightGrows(env, s.messages, t.messages, s.logs.kept);
      hide Pipeline.Apply, Pipeline.WorkersTell, AllRight, RightReport, FromKept;
      forall r <- t.logs.reported
        ensures RightReport(env, t.messages, t.logs.kept, r)
      {
        if r in s.logs.reported {
          ReportStaysRight(env, s.messages, t.messages, s.logs.kept, [], r);
          assert s.logs.kept + [] == s.logs.kept;
        } else {
          NewReportIsRight(env, s, a, r);
        }
      }
    }
  }

  lemma StepScan(env: Pipeline.Env, s: State, a: Pipeline.Action)
    requires StoreInv(s) && (forall r <- s.scan :: FromKept(s.logs.kept, r)) && Pipeline.Enabled(s, a) && !a.Work?
    ensures forall r <- Pipeline.Apply(env, s, a).scan :: FromKept(s.logs.kept, r)
  {
    hide P.Apply, P.Enabled, Pipeline.WorkStep, GetStatus, FromKept, StoreAfter;
    if a.TimerFires? {
      forall r <- a.snapshot
        ensures FromKept(s.logs.kept, r)
      {
        StoredIsKept(s.logs.kept, r.metrics.hostname);
      }
    }
  }

  lemma NewReportIsRight(env: Pipeline.Env, s: State, a: Pipeline.Action, r: Announcement)
    requires Pipeline.Enabled(s, a) && !a.Work? && forall q <- s.scan :: FromKept(s.logs.kept, q)
    requires r in Pipeline.Apply(env, s, a).logs.reported && r !in s.logs.reported
    ensures RightReport(env, Pipeline.Apply(env, s, a).messages, s.logs.kept, r)
  {
    OtherStepsTouchNothing(env, s, a);
    if a.TimerReports? {
      TimerReport(env, s, a.now);
      assert s.scan[0] in s.scan;
    }
    hide Pipeline.Apply, FromKept;
  }

  // ---------------------------------------------------------------------------
  // Once for each message
  // ---------------------------------------------------------------------------

  function Ids(log: seq<Entry>): seq<nat> {
    if log == [] then [] else Ids(log[..|log| - 1]) + [log[|log| - 1].id]
  }

  /** The messages whose workers have reported. */
  function ReporterIds(log: seq<Announcement>): seq<nat> {
    if log == [] then []
    else
      var last := log[|log| - 1];
      ReporterIds(log[..|log| - 1]) + if last.ByWorker? then [last.id] else []
  }

  lemma IdsOneMore(log: seq<Entry>, e: Entry, id: nat)
    ensures P.Times(Ids(log + [e]), id) == P.Times(Ids(log), id) + if e.id == id then 1 else 0
  {
    assert (log + [e])[..|log|] == log;
    P.TimesAppend(Ids(log), e.id, id);
  }

  lemma ReporterIdsOneMore(log: seq<Announcement>, a: Announcement, id: nat)
    ensures P.Times(ReporterIds(log + [a]), id)
            == P.Times(ReporterIds(log), id) + if a.ByWorker? && a.id == id then 1 else 0
  {
    assert (log + [a])[..|log|] == log;
    if a.ByWorker? {
      P.TimesAppend(ReporterIds(log), a.id, id);
    } else {
      assert ReporterIds(log) + [] == ReporterIds(log);
    }
  }

  /** The calls a worker has made: history, alerts, store and tracker are the second to the fifth. */
  function Rank(stage: Pipeline.Stage): nat {
    match stage
    case Parsed(_) => 1
    case Recorded(_) => 2
    case Evaluated(_) => 3
    case Kept(_) => 4
    case Done => 5
    case StoreFailed => 3
    case _ => 0
  }

  /** How many workers carry message id and have made a call. */
  function Past(workers: seq<P.Worker>, stages: seq<Pipeline.Stage>, id: nat, call: nat): nat
    requires |workers| == |stages|
  {
    if workers == [] then 0
    else (if workers[0] == P.Running(id) && Rank(stages[0]) >= call then 1 else 0)
         + Past(workers[1..], stages[1..], id, call)
  }

  predicate Counted(worker: P.Worker, stage: Pipeline.Stage, id: nat, call: nat) {
    worker == P.Running(id) && Rank(stage) >= call
  }

  lemma {:induction false} PastAgrees(
    workers: seq<P.Worker>, stages: seq<Pipeline.Stage>, workers': seq<P.Worker>, stages': seq<Pipeline.Stage>,
    id: nat, call: nat)
    requires |workers| == |stages| == |workers'| == |stages'|
    requires forall v :: 0 <= v < |workers| ==>
               (Counted(workers[v], stages[v], id, call) <==> Counted(workers'[v], stages'[v], id, call))
    ensures Past(workers', stages', id, call) == Past(workers, stages, id, call)
  {
    if workers != [] {
      hide Rank;
      assert Counted(workers[0], stages[0], id, call) <==> Counted(workers'[0], stages'[0], id, call);
      PastAgrees(workers[1..], stages[1..], workers'[1..], stages'[1..], id, call);
    }
  }

  lemma {:induction false} PastChanges(
    workers: seq<P.Worker>, stages: seq<Pipeline.Stage>, w: nat, worker: P.Worker, stage: Pipeline.Stage,
    id: nat, call: nat)
    requires |workers| == |stages| && w < |workers|
    ensures Past(workers[w := worker], stages[w := stage], id, call)
            + (if Counted(workers[w], stages[w], id, call) then 1 else 0)
            == Past(workers, stages, id, call) + if Counted(worker, stage, id, call) then 1 else 0
  {
    hide Rank;
    if w == 0 {
      assert workers[0 := worker][1..] == workers[1..] && stages[0 := stage][1..] == stages[1..];
    } else {
      PastChanges(workers[1..], stages[1..], w - 1, worker, stage, id, call);
      assert workers[w := worker][1..] == workers[1..][w - 1 := worker];
      assert stages[w := stage][1..] == stages[1..][w - 1 := stage];
    }
  }

  lemma {:induction false} PastIsRunning(
    workers: seq<P.Worker>, stages: seq<Pipeline.Stage>, id: nat, call: nat)
    requires |workers| == |stages|
    ensures Past(workers, stages, id, call) <= P.RunningCount(workers, id)
  {
    if workers != [] {
      PastIsRunning(workers[1..], stages[1..], id, call);
    }
  }

  ghost predicate SameLength(s: State) {
    |s.pool.workers| == |s.stages|
  }

  /** How often message id made a call. */
  function Made(logs: Pipeline.Logs, id: nat, call: nat): nat {
    if call == 2 then P.Times(Ids(logs.recorded), id)
    else if call == 3 then P.Times(Ids(logs.evaluated), id)
    else if call == 4 then P.Times(Ids(logs.kept), id)
    else P.Times(ReporterIds(logs.reported), id)
  }

  /** The call was made once by every completed message and by every worker past it. */
  ghost predicate Balanced(s: State, id: nat, call: nat)
    requires SameLength(s)
  {
    Made(s.logs, id, call) == P.Times(s.completed, id) + Past(s.pool.workers, s.stages, id, call)
  }

  ghost predicate CountsInv(s: State) {
    SameLength(s) && forall id: nat, call: nat | 2 <= call <= 5 :: Balanced(s, id, call)
  }

  /** The same calls made, and the same workers past each of them. */
  lemma BalancedKept(s: State, t: State, id: nat, call: nat)
    requires SameLength(s) && SameLength(t) && |t.stages| == |s.stages| && Balanced(s, id, call)
    requires t.completed == s.completed && Made(t.logs, id, call) == Made(s.logs, id, call)
    requires forall v :: 0 <= v < |s.stages| ==>
               (Counted(s.pool.workers[v], s.stages[v], id, call)
                <==> Counted(t.pool.workers[v], t.stages[v], id, call))
    ensures Balanced(t, id, call)
  {
    hide Made, P.Times, Counted;
    PastAgrees(s.pool.workers, s.stages, t.pool.workers, t.stages, id, call);
    hide Past;
  }

  lemma SameLogsMakeTheSame(before: Pipeline.Logs, after: Pipeline.Logs, id: nat, call: nat)
    requires after.recorded == before.recorded && after.evaluated == before.evaluated && after.kept == before.kept
    requires P.Times(ReporterIds(after.reported), id) == P.Times(ReporterIds(before.reported), id)
    ensures Made(after, id, call) == Made(before, id, call)
  {
    hide P.Times, Ids, ReporterIds;
  }

  /** The stage a worker comes to. */
  lemma WorkMovesOn(env: Pipeline.Env, s: State, w: nat, now: int)
    requires Pipeline.Enabled(s, Pipeline.Work(w, now)) && SameLength(s)
    requires s.stages[w].Evaluated? ==> s.stages[w].metrics.hostname != ""
    ensures var t := Pipeline.WorkStep(env, s, w, now);
            && |t.stages| == |s.stages| && t.stages == s.stages[w := t.stages[w]]
            && Rank(t.stages[w]) == (if t.stages[w].Rejected? then 0 else Rank(s.stages[w]) + 1)
            && (t.stages[w].Rejected? ==> Rank(s.stages[w]) == 0)
  {
    hide AddTo, Alerts.UpdateSpec, Interpret, Pipeline.PointAt, P.Enabled;
    match s.stages[w]
    case Fresh =>
    case Parsed(_) =>
    case _ =>
  }

  lemma WorkAddsToHistory(env: Pipeline.Env, s: State, w: nat, now: int, id: nat)
    requires Pipeline.Busy(s, w)
    ensures P.Times(Ids(Pipeline.WorkStep(env, s, w, now).logs.recorded), id)
            == P.Times(Ids(s.logs.recorded), id) + if s.pool.workers[w].task == id && s.stages[w].Parsed? then 1 else 0
  {
    WorkOnHistory(env, s, w, now);
    hide Pipeline.WorkStep, Ids, P.Times, AddTo, AdditionOf;
    if s.stages[w].Parsed? {
      IdsOneMore(s.logs.recorded, EntryOf(s, w, now), id);
    }
  }

  lemma WorkEvaluates(env: Pipeline.Env, s: State, w: nat, now: int, id: nat)
    requires Pipeline.Busy(s, w)
    ensures P.Times(Ids(Pipeline.WorkStep(env, s, w, now).logs.evaluated), id)
            == P.Times(Ids(s.logs.evaluated), id)
               + if s.pool.workers[w].task == id && s.stages[w].Recorded? then 1 else 0
  {
    WorkOnAlerts(env, s, w, now);
    hide Pipeline.WorkStep, Ids, P.Times, Alerts.UpdateSpec;
    if s.stages[w].Recorded? {
      IdsOneMore(s.logs.evaluated, EntryOf(s, w, now), id);
    }
  }

  lemma WorkKeeps(env: Pipeline.Env, s: State, w: nat, now: int, id: nat)
    requires Pipeline.Busy(s, w) && (s.stages[w].Evaluated? ==> s.stages[w].metrics.hostname != "")
    ensures P.Times(Ids(Pipeline.WorkStep(env, s, w, now).logs.kept), id)
            == P.Times(Ids(s.logs.kept), id) + if s.pool.workers[w].task == id && s.stages[w].Evaluated? then 1 else 0
  {
    WorkOnStore(env, s, w, now);
    hide Pipeline.WorkStep, Ids, P.Times, RecordOf;
    if s.stages[w].Evaluated? {
      IdsOneMore(s.logs.kept, EntryOf(s, w, now), id);
    }
  }

  lemma WorkReports(env: Pipeline.Env, s: State, w: nat, now: int, id: nat)
    requires Pipeline.Busy(s, w)
    ensures P.Times(ReporterIds(Pipeline.WorkStep(env, s, w, now).logs.reported), id)
            == P.Times(ReporterIds(s.logs.reported), id)
               + if s.pool.workers[w].task == id && s.stages[w].Kept? then 1 else 0
  {
    WorkOnTracker(env, s, w, now);
    hide Pipeline.WorkStep, ReporterIds, P.Times;
    if s.stages[w].Kept? {
      ReporterIdsOneMore(s.logs.reported, Pipeline.ByWorker(s.pool.workers[w].task, s.stages[w].hostname), id);
    }
  }

  /** The call a worker makes when it leaves a stage. */
  lemma WorkMakesCall(env: Pipeline.Env, s: State, w: nat, now: int, id: nat, call: nat)
    requires Pipeline.Busy(s, w) && 2 <= call <= 5 && !Pipeline.Finished(s.stages[w])
    requires s.stages[w].Evaluated? ==> s.stages[w].metrics.hostname != ""
    ensures Made(Pipeline.WorkStep(env, s, w, now).logs, id, call)
            == Made(s.logs, id, call)
               + if s.pool.workers[w].task == id && Rank(s.stages[w]) + 1 == call then 1 else 0
  {
    WorkAddsToHistory(env, s, w, now, id);
    WorkEvaluates(env, s, w, now, id);
    WorkKeeps(env, s, w, now, id);
    WorkReports(env, s, w, now, id);
    MadeIs(s.logs, id);
    MadeIs(Pipeline.WorkStep(env, s, w, now).logs, id);
    LeavingMakesCall(s.stages[w]);
    hide *;
  }

  lemma LeavingMakesCall(stage: Pipeline.Stage)
    requires !Pipeline.Finished(stage)
    ensures Rank(stage) + 1 == 2 <==> stage.Parsed?
    ensures Rank(stage) + 1 == 3 <==> stage.Recorded?
    ensures Rank(stage) + 1 == 4 <==> stage.Evaluated?
    ensures Rank(stage) + 1 == 5 <==> stage.Kept?
  {
  }

  lemma StepCountsAtWork(env: Pipeline.Env, s: State, w: nat, now: int, id: nat, call: nat)
    requires Pipeline.Enabled(s, Pipeline.Work(w, now)) && SameLength(s) && 2 <= call <= 5 && Balanced(s, id, call)
    requires s.stages[w].Evaluated? ==> s.stages[w].metrics.hostname != ""
    ensures SameLength(Pipeline.WorkStep(env, s, w, now)) && Balanced(Pipeline.WorkStep(env, s, w, now), id, call)
  {
    var t, workers := Pipeline.WorkStep(env, s, w, now), s.pool.workers;
    WorkMovesOn(env, s, w, now);
    WorkMakesCall(env, s, w, now, id, call);
    WorkKeepsRest(env, s, w, now);
    hide Pipeline.WorkStep, Made, P.Times, P.Enabled, Past, Rank;
    assert workers[w := workers[w]] == workers;
    PastChanges(workers, s.stages, w, workers[w], t.stages[w], id, call);
  }

  lemma StepCountsAtFinish(env: Pipeline.Env, s: State, w: nat, id: nat, call: nat)
    requires Pipeline.Enabled(s, Pipeline.FinishTask(w)) && SameLength(s) && 2 <= call <= 5 && Balanced(s, id, call)
    requires !s.stages[w].StoreFailed?
    ensures var t := Pipeline.Apply(env, s, Pipeline.FinishTask(w)); SameLength(t) && Balanced(t, id, call)
  {
    FinishSettles(env, s, w);
    hide Pipeline.Apply, Made, P.Times, P.Enabled, Past;
    PastChanges(s.pool.workers, s.stages, w, P.Ready, Pipeline.NoTask, id, call);
    P.TimesAppend(s.completed, s.pool.workers[w].task, id);
  }

  lemma FinishSettles(env: Pipeline.Env, s: State, w: nat)
    requires Pipeline.Enabled(s, Pipeline.FinishTask(w)) && SameLength(s) && !s.stages[w].StoreFailed?
    ensures var t := Pipeline.Apply(env, s, Pipeline.FinishTask(w));
            && t.stages == s.stages[w := Pipeline.NoTask] && t.pool.workers == s.pool.workers[w := P.Ready]
            && t.logs == s.logs && (s.stages[w].Done? || s.stages[w].Rejected?)
            && t.completed == if s.stages[w].Done? then s.completed + [s.pool.workers[w].task] else s.completed
  {
    FinishFrees(env, s, w);
    Pipeline.FinishRecordsTask(env, s, w);
    OtherStepsTouchNothing(env, s, Pipeline.FinishTask(w));
    hide Pipeline.Apply, P.Enabled;
  }

  lemma FinishFrees(env: Pipeline.Env, s: State, w: nat)
    requires Pipeline.Enabled(s, Pipeline.FinishTask(w)) && SameLength(s)
    ensures var t := Pipeline.Apply(env, s, Pipeline.FinishTask(w));
            && t.stages == s.stages[w := Pipeline.NoTask] && t.pool.workers == s.pool.workers[w := P.Ready]
            && Pipeline.Finished(s.stages[w])
  {
    Pipeline.PoolFinishes(s.pool, w);
    hide P.Apply, P.Enabled;
  }

  lemma StepCountsInPool(env: Pipeline.Env, s: State, b: P.Action, id: nat, call: nat)
    requires Pipeline.Enabled(s, Pipeline.PoolStep(b)) && Pipeline.TasksInv(s) && SameLength(s)
    requires 2 <= call <= 5 && Balanced(s, id, call)
    ensures var t := Pipeline.Apply(env, s, Pipeline.PoolStep(b)); SameLength(t) && Balanced(t, id, call)
  {
    var t := Pipeline.Apply(env, s, Pipeline.PoolStep(b));
    PoolKeepsShape(env, s, b);
    OtherStepsTouchNothing(env, s, Pipeline.PoolStep(b));
    hide Pipeline.Apply, Counted, P.Enabled, Pipeline.TasksInv;
    forall v | 0 <= v < |s.stages|
      ensures Counted(s.pool.workers[v], s.stages[v], id, call) <==> Counted(t.pool.workers[v], t.stages[v], id, call)
    {
      PoolKeepsCounted(env, s, b, v, id, call);
    }
    SameLogsMakeTheSame(s.logs, t.logs, id, call);
    BalancedKept(s, t, id, call);
  }

  lemma PoolKeepsShape(env: Pipeline.Env, s: State, b: P.Action)
    requires Pipeline.Enabled(s, Pipeline.PoolStep(b)) && Pipeline.TasksInv(s)
    ensures var t := Pipeline.Apply(env, s, Pipeline.PoolStep(b));
            |t.pool.workers| == |s.pool.workers| == |t.stages| == |s.stages| && t.completed == s.completed
  {
    Pipeline.PoolMovesTasks(s.pool, b, |s.messages|);
    hide P.Apply, P.Enabled;
  }

  lemma PoolKeepsCounted(env: Pipeline.Env, s: State, b: P.Action, v: nat, id: nat, call: nat)
    requires Pipeline.Enabled(s, Pipeline.PoolStep(b)) && Pipeline.TasksInv(s) && v < |s.stages| && call >= 2
    ensures var t := Pipeline.Apply(env, s, Pipeline.PoolStep(b));
            && |t.pool.workers| == |s.pool.workers| == |t.stages|
            && (Counted(s.pool.workers[v], s.stages[v], id, call)
                <==> Counted(t.pool.workers[v], t.stages[v], id, call))
  {
    Pipeline.PoolMovesTasks(s.pool, b, |s.messages|);
    Pipeline.PoolKeepsRunners(s.pool, b, v);
    hide P.Apply, P.Enabled;
  }

  lemma StepCountsElsewhere(env: Pipeline.Env, s: State, a: Pipeline.Action, id: nat, call: nat)
    requires Pipeline.Enabled(s, a) && (a.Deliver? || a.TimerFires? || a.TimerReports?) && SameLength(s)
    requires 2 <= call <= 5 && Balanced(s, id, call)
    ensures var t := Pipeline.Apply(env, s, a); SameLength(t) && Balanced(t, id, call)
  {
    var t := Pipeline.Apply(env, s, a);
    OtherStepsTouchNothing(env, s, a);
    ElsewhereNobodyMoves(env, s, a);
    if a.TimerReports? {
      TimerReport(env, s, a.now);
      ReporterIdsOneMore(s.logs.reported, Pipeline.ByTimer(s.scan[0], a.now), id);
    }
    hide Pipeline.Apply, Counted, Pipeline.Enabled, Ids, ReporterIds, P.Times;
    SameLogsMakeTheSame(s.logs, t.logs, id, call);
    BalancedKept(s, t, id, call);
  }

  lemma ElsewhereNobodyMoves(env: Pipeline.Env, s: State, a: Pipeline.Action)
    requires Pipeline.Enabled(s, a) && (a.Deliver? || a.TimerFires? || a.TimerReports?)
    ensures var t := Pipeline.Apply(env, s, a);
            t.pool.workers == s.pool.workers && t.stages == s.stages && t.completed == s.completed
  {
    hide GetStatus, Pipeline.IsSnapshot;
  }

  lemma StepCount(env: Pipeline.Env, s: State, a: Pipeline.Action, id: nat, call: nat)
    requires Pipeline.Enabled(s, a) && Pipeline.TasksInv(s) && SameLength(s) && 2 <= call <= 5 && Balanced(s, id, call)
    requires a.Work? && s.stages[a.worker].Evaluated? ==> s.stages[a.worker].metrics.hostname != ""
    requires a.FinishTask? ==> !s.stages[a.worker].StoreFailed?
    ensures SameLength(Pipeline.Apply(env, s, a)) && Balanced(Pipeline.Apply(env, s, a), id, call)
  {
    if a.Work? {
      WorkIsApply(env, s, a.worker, a.now);
    }
    hide Pipeline.Apply, Pipeline.WorkStep, Balanced, Pipeline.TasksInv;
    match a {
      case Work(w, now) => StepCountsAtWork(env, s, w, now, id, call);
      case FinishTask(w) => StepCountsAtFinish(env, s, w, id, call);
      case PoolStep(b) => StepCountsInPool(env, s, b, id, call);
      case _ => StepCountsElsewhere(env, s, a, id, call);
    }
  }

  lemma StepCounts(env: Pipeline.Env, s: State, a: Pipeline.Action)
    requires Pipeline.Inv(env, s) && CountsInv(s) && Pipeline.Enabled(s, a)
    ensures CountsInv(Pipeline.Apply(env, s, a))
  {
    StageFacts(env, s, a);
    assert Pipeline.TasksInv(s) by { hide P.Inv, Pipeline.TasksInv, Pipeline.HostsInv; }
    hide Pipeline.Inv, Pipeline.Apply, Pipeline.TasksInv, Balanced, Pipeline.Enabled;
    StepCount(env, s, a, 0, 2);
    forall id: nat, call: nat | 2 <= call <= 5
      ensures Balanced(Pipeline.Apply(env, s, a), id, call)
    {
      StepCount(env, s, a, id, call);
    }
  }

  lemma WorkIsApply(env: Pipeline.Env, s: State, w: nat, now: int)
    requires Pipeline.Enabled(s, Pipeline.Work(w, now))
    ensures Pipeline.Apply(env, s, Pipeline.Work(w, now)) == Pipeline.WorkStep(env, s, w, now)
  {
    hide Pipeline.WorkStep;
  }

  /** No worker stands where the store has failed or is about to. */
  lemma StageFacts(env: Pipeline.Env, s: State, a: Pipeline.Action)
    requires Pipeline.Inv(env, s) && Pipeline.Enabled(s, a)
    ensures a.Work? && s.stages[a.worker].Evaluated? ==> s.stages[a.worker].metrics.hostname != ""
    ensures a.FinishTask? ==> !s.stages[a.worker].StoreFailed?
  {
    hide P.Inv, P.Enabled, Pipeline.AccountInv, Pipeline.VerdictsInv, Pipeline.OriginInv;
    if a.Work? || a.FinishTask? {
      assert Pipeline.StageInv(s, s.stages[a.worker]);
    }
  }

  // ---------------------------------------------------------------------------
  // Results, for every interleaving
  // ---------------------------------------------------------------------------

  ghost predicate Inv(env: Pipeline.Env, s: State) {
    Pipeline.Inv(env, s) && StoresInv(env, s) && EntriesInv(env, s) && CountsInv(s)
  }

  lemma {:induction false} NothingIsPast(workers: seq<P.Worker>, stages: seq<Pipeline.Stage>, id: nat, call: nat)
    requires |workers| == |stages| && forall w :: 0 <= w < |workers| ==> workers[w].Ready?
    ensures Past(workers, stages, id, call) == 0
  {
    if workers != [] {
      NothingIsPast(workers[1..], stages[1..], id, call);
    }
  }

  lemma InitInv(env: Pipeline.Env, s: State)
    requires Pipeline.Init(env, s)
    ensures Inv(env, s)
  {
    Pipeline.InitInv(env, s);
    hide Pipeline.Inv;
    assert Additions([]) == [] && Samples([]) == [] && Reports([]) == [];
    forall id: nat, call: nat | 2 <= call <= 5
      ensures SameLength(s) && Balanced(s, id, call)
    {
      NothingIsPast(s.pool.workers, s.stages, id, call);
      hide Past;
    }
  }

  lemma StepInv(env: Pipeline.Env, s: State, a: Pipeline.Action)
    requires Inv(env, s) && Pipeline.Enabled(s, a)
    ensures Inv(env, Pipeline.Apply(env, s, a))
  {
    Pipeline.StepInv(env, s, a);
    assert Pipeline.WorkersTell(env, s) by { InvTells(env, s); }
    hide Pipeline.Inv, Pipeline.WorkersTell, Pipeline.Apply, Pipeline.Enabled, CountsInv, EntriesInv, HistoriesInv,
         AlertsInv, TrackerInv, StoreInv;
    StepStores(env, s, a);
    StepEntries(env, s, a);
    StepCounts(env, s, a);
  }

  lemma InvTells(env: Pipeline.Env, s: State)
    requires Pipeline.Inv(env, s)
    ensures Pipeline.WorkersTell(env, s)
  {
    hide P.Inv, Pipeline.TasksInv, Pipeline.HostsInv, Pipeline.AccountInv, Pipeline.OriginInv;
    Pipeline.VerdictsTell(env, s);
  }

  lemma {:induction false} RunInv(env: Pipeline.Env, s: State, actions: seq<Pipeline.Action>, t: State)
    requires Inv(env, s) && Pipeline.Leads(env, s, actions, t)
    ensures Inv(env, t)
    decreases actions
  {
    hide Inv, Pipeline.Apply;
    if actions != [] {
      StepInv(env, s, actions[0]);
      RunInv(env, Pipeline.Apply(env, s, actions[0]), actions[1..], t);
    }
  }

  /** The history is the replay of its additions, the alerts are the run of the manager over the
      samples it was given, the store holds the last record kept for each host, and the tracker the
      last report. */
  lemma StoresFollowTheirCalls(env: Pipeline.Env, s: State, actions: seq<Pipeline.Action>, t: State)
    requires Pipeline.Init(env, s) && Pipeline.Leads(env, s, actions, t)
    ensures t.histories == Replay(Additions(t.logs.recorded), env.historyMax)
    ensures t.alerts == Alerts.Run(Samples(t.logs.evaluated), env.settings)
    ensures t.stored == StoreAfter(t.logs.kept)
    ensures t.tracked == Track(Reports(t.logs.reported))
  {
    InitInv(env, s);
    RunInv(env, s, actions, t);
    hide Pipeline.Inv, EntriesInv, CountsInv, Replay, Alerts.Run, StoreAfter, Track;
  }

  /** Every call carries what the parser made of a delivered message; the timer reports on records
      that the store has held. */
  lemma CallsAreRight(env: Pipeline.Env, s: State, actions: seq<Pipeline.Action>, t: State)
    requires Pipeline.Init(env, s) && Pipeline.Leads(env, s, actions, t)
    ensures forall e <- t.logs.recorded + t.logs.evaluated + t.logs.kept ::
              e.id < |t.messages| && Interpret(env.lib, t.messages[e.id]) == Success(e.metrics)
    ensures forall a <- t.logs.reported :: RightReport(env, t.messages, t.logs.kept, a)
  {
    InitInv(env, s);
    RunInv(env, s, actions, t);
    hide Pipeline.Inv, StoresInv, CountsInv, Interpret, RightReport;
    forall e <- t.logs.recorded + t.logs.evaluated + t.logs.kept
      ensures Right(env, t.messages, e)
    {
    }
  }

  /** A pass of the timer reports on every host that was stored when it began: what is no longer to be
      reported has been, with the status of some clock reading. */
  lemma {:induction false} TimerReportsEveryHost(
    env: Pipeline.Env, s: State, actions: seq<Pipeline.Action>, t: State, r: StoredMetrics)
    requires Pipeline.Leads(env, s, actions, t) && r in s.scan
    requires forall a <- actions :: !a.TimerFires?
    ensures r in t.scan || exists now: int :: Pipeline.ByTimer(r, now) in t.logs.reported
    decreases actions
  {
    hide Pipeline.Apply;
    if actions != [] {
      var a, next := actions[0], Pipeline.Apply(env, s, actions[0]);
      assert a in actions && forall b <- actions[1..] :: b in actions;
      ScanAdvances(env, s, a, r);
      if r in next.scan {
        TimerReportsEveryHost(env, next, actions[1..], t, r);
      } else {
        var now: int :| Pipeline.ByTimer(r, now) in next.logs.reported;
        ReportsStay(env, next, actions[1..], t, Pipeline.ByTimer(r, now));
      }
    }
  }

  lemma ScanAdvances(env: Pipeline.Env, s: State, a: Pipeline.Action, r: StoredMetrics)
    requires Pipeline.Enabled(s, a) && !a.TimerFires? && r in s.scan
    ensures var t := Pipeline.Apply(env, s, a);
            r in t.scan || exists now: int :: Pipeline.ByTimer(r, now) in t.logs.reported
  {
    var t := Pipeline.Apply(env, s, a);
    if a.Work? {
      WorkKeepsRest(env, s, a.worker, a.now);
    } else if a.TimerReports? {
      TimerReport(env, s, a.now);
      assert s.scan == [s.scan[0]] + s.scan[1..];
      assert r == s.scan[0] ==> Pipeline.ByTimer(r, a.now) in t.logs.reported;
    }
    hide P.Apply, P.Enabled, Pipeline.WorkStep, GetStatus, Pipeline.Busy, Pipeline.IsSnapshot;
  }

  lemma {:induction false} ReportsStay(
    env: Pipeline.Env, s: State, actions: seq<Pipeline.Action>, t: State, r: Announcement)
    requires Pipeline.Leads(env, s, actions, t) && r in s.logs.reported
    ensures r in t.logs.reported
    decreases actions
  {
    if actions != [] {
      ReportStays(env, s, actions[0], r);
      hide Pipeline.Apply, Pipeline.Enabled;
      ReportsStay(env, Pipeline.Apply(env, s, actions[0]), actions[1..], t, r);
    }
  }

  lemma ReportStays(env: Pipeline.Env, s: State, a: Pipeline.Action, r: Announcement)
    requires Pipeline.Enabled(s, a) && r in s.logs.reported
    ensures r in Pipeline.Apply(env, s, a).logs.reported
  {
    if a.Work? {
      WorkOnTracker(env, s, a.worker, a.now);
      WorkIsApply(env, s, a.worker, a.now);
    } else if a.TimerReports? {
      TimerReport(env, s, a.now);
    } else {
      OtherStepsKeepReports(env, s, a);
    }
    hide Pipeline.Apply, Pipeline.WorkStep, Pipeline.Enabled;
  }

  /** The pass covers every stored host. */
  lemma TimerCoversEveryHost(env: Pipeline.Env, s: State, snapshot: seq<StoredMetrics>, h: string)
    requires Pipeline.Enabled(s, Pipeline.TimerFires(snapshot)) && h in s.stored
    ensures s.stored[h] in Pipeline.Apply(env, s, Pipeline.TimerFires(snapshot)).scan
  {
  }

  /** A completed message has been added to the history, evaluated for alerts, stored and reported
      once each. One that was dropped, rejected or is still queued has made no call. */
  lemma EachMessageTakesEffectOnce(
    env: Pipeline.Env, s: State, actions: seq<Pipeline.Action>, t: State, id: nat)
    requires Pipeline.Init(env, s) && Pipeline.Leads(env, s, actions, t) && id < |t.messages|
    ensures id in t.completed ==>
              && P.Times(Ids(t.logs.recorded), id) == P.Times(Ids(t.logs.evaluated), id) == 1
              && P.Times(Ids(t.logs.kept), id) == P.Times(ReporterIds(t.logs.reported), id) == 1
    ensures id in t.dropped || id in t.rejected || id in t.pool.tasks ==>
              && id !in Ids(t.logs.recorded) && id !in Ids(t.logs.evaluated)
              && id !in Ids(t.logs.kept) && id !in ReporterIds(t.logs.reported)
  {
    CallsAreCounted(env, s, actions, t, id, 2);
    CallsAreCounted(env, s, actions, t, id, 3);
    CallsAreCounted(env, s, actions, t, id, 4);
    CallsAreCounted(env, s, actions, t, id, 5);
    hide *;
    NotIn(Ids(t.logs.recorded), id);
    NotIn(Ids(t.logs.evaluated), id);
    NotIn(Ids(t.logs.kept), id);
    NotIn(ReporterIds(t.logs.reported), id);
    MadeIs(t.logs, id);
  }

  lemma MadeIs(logs: Pipeline.Logs, id: nat)
    ensures Made(logs, id, 2) == P.Times(Ids(logs.recorded), id)
    ensures Made(logs, id, 3) == P.Times(Ids(logs.evaluated), id)
    ensures Made(logs, id, 4) == P.Times(Ids(logs.kept), id)
    ensures Made(logs, id, 5) == P.Times(ReporterIds(logs.reported), id)
  {
  }

  lemma NotIn(log: seq<nat>, id: nat)
    ensures id in log <==> P.Times(log, id) > 0
  {
  }

  /** A message makes each call at most once: one that is completed has made it, and one that is not
      running has not, unless it is completed. */
  lemma CallsAreCounted(
    env: Pipeline.Env, s: State, actions: seq<Pipeline.Action>, t: State, id: nat, call: nat)
    requires Pipeline.Init(env, s) && Pipeline.Leads(env, s, actions, t) && id < |t.messages| && 2 <= call <= 5
    ensures Made(t.logs, id, call) <= 1
    ensures id in t.completed ==> Made(t.logs, id, call) == 1
    ensures id in t.dropped || id in t.rejected || id in t.pool.tasks ==> Made(t.logs, id, call) == 0
  {
    InitInv(env, s);
    RunInv(env, s, actions, t);
    Pipeline.MessagesAreConserved(env, s, actions, t, id);
    assert SameLength(t) && Balanced(t, id, call);
    PastIsRunning(t.pool.workers, t.stages, id, call);
    hide Inv, Past, Made, P.RunningCount, P.Times, Pipeline.IsStored, Interpret;
    NotIn(t.completed, id);
    NotIn(t.dropped, id);
    NotIn(t.rejected, id);
    NotIn(t.pool.tasks, id);
  }

  /** While a message is running, its worker has made the calls before its stage, once each, and none
      after it. */
  lemma RunningMessageIsHalfway(
    env: Pipeline.Env, s: State, actions: seq<Pipeline.Action>, t: State, w: nat)
    requires Pipeline.Init(env, s) && Pipeline.Leads(env, s, actions, t) && Pipeline.Busy(t, w)
    ensures var id, calls := t.pool.workers[w].task, Rank(t.stages[w]);
            && P.Times(Ids(t.logs.recorded), id) == (if calls >= 2 then 1 else 0)
            && P.Times(Ids(t.logs.evaluated), id) == (if calls >= 3 then 1 else 0)
            && P.Times(Ids(t.logs.kept), id) == (if calls >= 4 then 1 else 0)
            && P.Times(ReporterIds(t.logs.reported), id) == (if calls >= 5 then 1 else 0)
  {
    var id := t.pool.workers[w].task;
    hide Pipeline.Leads, Pipeline.Init, Ids, ReporterIds, P.Times, Rank;
    HalfwayAt(env, s, actions, t, w, 2);
    HalfwayAt(env, s, actions, t, w, 3);
    HalfwayAt(env, s, actions, t, w, 4);
    HalfwayAt(env, s, actions, t, w, 5);
    MadeIs(t.logs, id);
  }

  lemma HalfwayAt(env: Pipeline.Env, s: State, actions: seq<Pipeline.Action>, t: State, w: nat, call: nat)
    requires Pipeline.Init(env, s) && Pipeline.Leads(env, s, actions, t) && Pipeline.Busy(t, w) && 2 <= call <= 5
    ensures Made(t.logs, t.pool.workers[w].task, call) == if Rank(t.stages[w]) >= call then 1 else 0
  {
    var id := t.pool.workers[w].task;
    InitInv(env, s);
    RunInv(env, s, actions, t);
    Pipeline.MessagesAreConserved(env, s, actions, t, id);
    assert SameLength(t) && Balanced(t, id, call);
    P.SomeoneRuns(t.pool.workers, w);
    PastOfOnly(t.pool.workers, t.stages, w, call);
    hide Inv, Past, Made, P.RunningCount, Interpret, P.Times, Rank;
  }

  lemma {:induction false} PastOfOnly(workers: seq<P.Worker>, stages: seq<Pipeline.Stage>, w: nat, call: nat)
    requires |workers| == |stages| && w < |workers| && workers[w].Running?
    requires P.RunningCount(workers, workers[w].task) <= 1
    ensures Past(workers, stages, workers[w].task, call) == if Rank(stages[w]) >= call then 1 else 0
  {
    hide Rank;
    if w == 0 {
      PastIsRunning(workers[1..], stages[1..], workers[0].task, call);
    } else {
      if workers[0] == workers[w] {
        P.SomeoneRuns(workers[1..], w - 1);
        assert false;
      }
      PastOfOnly(workers[1..], stages[1..], w - 1, call);
    }
  }
}
