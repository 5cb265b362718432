/** The server pipeline of src/server/TcpServer.cpp over the worker pool: the reactor submits each
    delivered message as a task or drops it; a worker parses it, adds to the history, updates the
    alerts, stores the snapshot and reports the host online; a timer walks over the stored hosts
    and reports their liveness. Every call on a store is one step, and all steps interleave.

    A task of the pool is the index of the message it carries. */
module Pipeline {
  import opened Wrappers
  import Decimal
  import opened Metrics
  import opened Deserializer
  import opened Stores
  import Acceptance
  import Alerts
  import P = ThreadPool

  /** How far a worker is in its task. */
  datatype Stage =
    | NoTask
    | Fresh
    | Parsed(metrics: SystemMetrics)
    | Recorded(metrics: SystemMetrics)
    | Evaluated(metrics: SystemMetrics)
    | Kept(hostname: string)
    | Rejected
    | StoreFailed
    | Done

  /** What a worker did with one message: the message, the snapshot, and the clock it read. */
  datatype Entry = Entry(id: nat, metrics: SystemMetrics, now: int)

  /** A report to the tracker: by the worker of a message, or by the timer about a stored record. */
  datatype Announcement = ByWorker(id: nat, hostname: string) | ByTimer(record: StoredMetrics, now: int)

  /** A record of every call on the history, the alerts, the store and the tracker, in order. */
  datatype Logs = Logs(
    recorded: seq<Entry>, evaluated: seq<Entry>, kept: seq<Entry>, reported: seq<Announcement>)

  datatype Env = Env(lib: Decimal.NumberLibrary, settings: Alerts.Settings, historyMax: nat)

  datatype State = State(
    pool: P.State,
    stages: seq<Stage>,
    messages: seq<string>,
    dropped: seq<nat>,
    rejected: seq<nat>,
    completed: seq<nat>,
    histories: Histories,
    alerts: Alerts.Table,
    stored: map<string, StoredMetrics>,
    tracked: States,
    scan: seq<StoredMetrics>,
    logs: Logs)

  /** `now` is the clock reading the step makes. The reactor is caller 0 of the pool. */
  datatype Action =
    | Deliver(message: string)
    | PoolStep(action: P.Action)
    | Work(worker: nat, now: int)
    | FinishTask(worker: nat)
    | TimerFires(snapshot: seq<StoredMetrics>)
    | TimerReports(now: int)

  predicate Finished(stage: Stage) {
    stage.Rejected? || stage.StoreFailed? || stage.Done?
  }

  ghost predicate Busy(s: State, w: nat) {
    w < |s.stages| && w < |s.pool.workers| && s.pool.workers[w].Running? && s.pool.workers[w].task < |s.messages|
  }

  ghost predicate Enabled(s: State, a: Action) {
    match a
    case Deliver(_) => P.Enabled(s.pool, P.Submit(0, |s.messages|))
    case PoolStep(b) => !b.Submit? && !b.Finish? && P.Enabled(s.pool, b) && (b.Look? ==> b.worker < |s.stages|)
    case Work(w, _) => Busy(s, w) && !Finished(s.stages[w]) && !s.stages[w].NoTask?
    case FinishTask(w) => Busy(s, w) && Finished(s.stages[w])
    case TimerFires(snapshot) => s.scan == [] && IsSnapshot(s.stored, snapshot)
    case TimerReports(_) => s.scan != []
  }

  /** What `getAll` returns: every record once, in some order. */
  ghost predicate IsSnapshot(stored: map<string, StoredMetrics>, snapshot: seq<StoredMetrics>) {
    && (forall r <- snapshot :: r.metrics.hostname in stored && stored[r.metrics.hostname] == r)
    && (forall h <- stored :: stored[h] in snapshot)
    && |snapshot| == |stored|
  }

  function PointAt(m: SystemMetrics, now: int): Point {
    Point(now / 1_000_000, m.cpuUsagePercent.Value(), m.memoryUsagePercent.Value())
  }

  /** One statement of the task body. */
  ghost function WorkStep(env: Env, s: State, w: nat, now: int): State
    requires Busy(s, w)
  {
    var id := s.pool.workers[w].task;
    match s.stages[w]
    case Fresh =>
      var r := Interpret(env.lib, s.messages[id]);
      s.(stages := s.stages[w := if r.Success? then Parsed(r.value) else Rejected])
    case Parsed(m) =>
      s.(stages := s.stages[w := Recorded(m)],
         histories := AddTo(s.histories, Addition(m.hostname, PointAt(m, now)), env.historyMax),
         logs := s.logs.(recorded := s.logs.recorded + [Entry(id, m, now)]))
    case Recorded(m) =>
      s.(stages := s.stages[w := Evaluated(m)],
         alerts := Alerts.UpdateSpec(s.alerts, m, now, env.settings).table,
         logs := s.logs.(evaluated := s.logs.evaluated + [Entry(id, m, now)]))
    case Evaluated(m) =>
      if m.hostname == "" then s.(stages := s.stages[w := StoreFailed])
      else s.(stages := s.stages[w := Kept(m.hostname)],
              stored := s.stored[m.hostname := StoredMetrics(m, now)],
              logs := s.logs.(kept := s.logs.kept + [Entry(id, m, now)]))
    case Kept(hostname) =>
      s.(stages := s.stages[w := Done],
         tracked := s.tracked[hostname := Online],
         logs := s.logs.(reported := s.logs.reported + [ByWorker(id, hostname)]))
    case _ => s
  }

  ghost function Apply(env: Env, s: State, a: Action): State
    requires Enabled(s, a)
  {
    match a
    case Deliver(message) =>
      var id := |s.messages|;
      var t := s.(messages := s.messages + [message], pool := P.Apply(s.pool, P.Submit(0, id)));
      if P.Accepts(s.pool.tasks, s.pool.stopping, s.pool.maxQueueSize) then t
      else t.(dropped := s.dropped + [id])
    case PoolStep(b) =>
      var t := s.(pool := P.Apply(s.pool, b));
      if b.Look? && s.pool.tasks != [] then t.(stages := s.stages[b.worker := Fresh]) else t
    case Work(w, now) => WorkStep(env, s, w, now)
    case FinishTask(w) =>
      var id := s.pool.workers[w].task;
      var t := s.(pool := P.Apply(s.pool, P.Finish(w)), stages := s.stages[w := NoTask]);
      if s.stages[w].Done? then t.(completed := s.completed + [id]) else t.(rejected := s.rejected + [id])
    case TimerFires(snapshot) => s.(scan := snapshot)
    case TimerReports(now) =>
      var r := s.scan[0];
      s.(scan := s.scan[1..],
         tracked := s.tracked[r.metrics.hostname := GetStatus(r.updatedAt, now)],
         logs := s.logs.(reported := s.logs.reported + [ByTimer(r, now)]))
  }

  ghost predicate Init(env: Env, s: State) {
    && env.historyMax > 0
    && P.Init(s.pool) && |s.stages| == |s.pool.workers|
    && (forall w :: 0 <= w < |s.stages| ==> s.stages[w].NoTask?)
    && s.messages == [] && s.dropped == s.rejected == s.completed == [] && s.scan == []
    && s.histories == map[] && s.alerts == map[] && s.stored == map[] && s.tracked == map[]
    && s.logs == Logs([], [], [], [])
  }

  ghost predicate Leads(env: Env, s: State, actions: seq<Action>, t: State)
    decreases actions
  {
    if actions == [] then s == t
    else Enabled(s, actions[0]) && Leads(env, Apply(env, s, actions[0]), actions[1..], t)
  }

  // ---------------------------------------------------------------------------
  // Invariants
  // ---------------------------------------------------------------------------

  /** Every queued or running task carries a delivered message, and worker and stage agree. */
  ghost predicate TasksInv(s: State) {
    && |s.stages| == |s.pool.workers|
    && (forall i :: 0 <= i < |s.pool.tasks| ==> s.pool.tasks[i] < |s.messages|)
    && (forall w :: 0 <= w < |s.stages| ==> (s.pool.workers[w].Running? <==> !s.stages[w].NoTask?))
    && (forall w :: 0 <= w < |s.stages| && s.pool.workers[w].Running? ==> s.pool.workers[w].task < |s.messages|)
  }

  predicate Carries(stage: Stage) {
    stage.Parsed? || stage.Recorded? || stage.Evaluated?
  }

  function HostOf(stage: Stage): string {
    if Carries(stage) then stage.metrics.hostname else if stage.Kept? then stage.hostname else ""
  }

  ghost predicate StageInv(s: State, stage: Stage) {
    && !stage.StoreFailed?
    && (Carries(stage) || stage.Kept? ==> HostOf(stage) != "")
    && (stage.Recorded? || stage.Evaluated? ==> HistoryOf(s.histories, HostOf(stage)) != [])
    && (stage.Kept? ==> HostOf(stage) in s.stored)
  }

  /** A host with an alert record has a history. */
  ghost predicate AlertsInv(s: State) {
    forall key <- s.alerts :: HistoryOf(s.histories, s.alerts[key].hostname) != []
  }

  /** Tracked hosts are stored, stored hosts have a history, and no store ever meets an empty name. */
  ghost predicate HostsInv(s: State) {
    && AlertsInv(s)
    && (forall h <- s.tracked :: h in s.stored)
    && (forall h <- s.stored :: HistoryOf(s.histories, h) != [])
    && (forall r <- s.scan :: r.metrics.hostname in s.stored)
    && (forall w :: 0 <= w < |s.stages| ==> StageInv(s, s.stages[w]))
  }

  /** Each delivered message was accepted or dropped, once, and each finished task was rejected or
      completed. */
  ghost predicate AccountInv(s: State) {
    && (forall id: nat :: P.Times(s.pool.accepted, id) + P.Times(s.dropped, id) == if id < |s.messages| then 1 else 0)
    && (forall id: nat :: P.Times(s.pool.finished, id) == P.Times(s.rejected, id) + P.Times(s.completed, id))
  }

  /** What the stage of a worker says about the message it carries. */
  ghost predicate Tells(env: Env, s: State, stage: Stage, message: string) {
    match stage
    case Parsed(m) => Interpret(env.lib, message) == Success(m)
    case Recorded(m) => Interpret(env.lib, message) == Success(m)
    case Evaluated(m) => Interpret(env.lib, message) == Success(m)
    case Kept(hostname) => IsStored(env, s, message) && Interpret(env.lib, message).value.hostname == hostname
    case Done => IsStored(env, s, message)
    case Rejected => Interpret(env.lib, message).Failure?
    case _ => true
  }

  /** The parser accepts the message, and the host it names is stored. */
  ghost predicate IsStored(env: Env, s: State, message: string) {
    Interpret(env.lib, message).Success? && Interpret(env.lib, message).value.hostname in s.stored
  }

  ghost predicate WorkersTell(env: Env, s: State) {
    forall w: nat :: Busy(s, w) ==> Tells(env, s, s.stages[w], s.messages[s.pool.workers[w].task])
  }

  /** Completed messages were accepted and stored, rejected ones were refused by the parser. */
  ghost predicate VerdictsInv(env: Env, s: State) {
    && WorkersTell(env, s)
    && (forall id <- s.completed :: id < |s.messages| && IsStored(env, s, s.messages[id]))
    && (forall id <- s.rejected :: id < |s.messages| && Interpret(env.lib, s.messages[id]).Failure?)
  }

  /** Snapshot m is what the parser makes of some delivered message. */
  ghost predicate WasDelivered(env: Env, messages: seq<string>, m: SystemMetrics) {
    exists id: nat :: id < |messages| && Interpret(env.lib, messages[id]) == Success(m)
  }

  /** Each record is filed under its own host and holds the parse of a delivered message. */
  ghost predicate OriginInv(env: Env, s: State) {
    forall h <- s.stored :: s.stored[h].metrics.hostname == h && WasDelivered(env, s.messages, s.stored[h].metrics)
  }

  ghost predicate Inv(env: Env, s: State) {
    && env.historyMax > 0 && P.Inv(s.pool)
    && TasksInv(s) && HostsInv(s) && AccountInv(s) && VerdictsInv(env, s) && OriginInv(env, s)
  }

  /** A parsed snapshot has a host name. */
  lemma ParserRejectsEmptyHostname(lib: Decimal.NumberLibrary, payload: string)
    ensures Interpret(lib, payload).Success? ==> Interpret(lib, payload).value.hostname != ""
  {
    hide Interpret;
    if Interpret(lib, payload).Success? {
      var m := Interpret(lib, payload).value;
      Acceptance.Accepted(lib, payload, m);
      hide SplitLines, ClassifyAll, ParseField;
      var records := ClassifyAll(SplitLines(payload)[1..]);
      assert Acceptance.CountOf(records, Hostname) == 1;
      var r := Acceptance.FieldIsGiven(records, Hostname);
      assert ParseField(lib, Hostname, r.text) == Some(ValueOf(m, Hostname));
      assert HasKind(KindOf(Hostname), ValueOf(m, Hostname));
    }
  }

  lemma InitInv(env: Env, s: State)
    requires Init(env, s)
    ensures Inv(env, s)
  {
    P.InitInv(s.pool);
  }

  lemma StepPool(env: Env, s: State, a: Action)
    requires P.Inv(s.pool) && Enabled(s, a)
    ensures P.Inv(Apply(env, s, a).pool)
  {
    hide P.Inv, P.Apply, AddTo, Alerts.UpdateSpec, Interpret;
    match a {
      case Deliver(_) => P.StepInv(s.pool, P.Submit(0, |s.messages|));
      case PoolStep(b) => P.StepInv(s.pool, b);
      case FinishTask(w) => P.StepInv(s.pool, P.Finish(w));
      case _ =>
    }
  }

  /** A pool step that neither submits nor finishes a task only moves tasks from the queue to workers. */
  lemma PoolMovesTasks(p: P.State, b: P.Action, bound: nat)
    requires P.Enabled(p, b) && !b.Submit? && !b.Finish?
    requires forall i :: 0 <= i < |p.tasks| ==> p.tasks[i] < bound
    requires forall w :: 0 <= w < |p.workers| && p.workers[w].Running? ==> p.workers[w].task < bound
    ensures var q := P.Apply(p, b);
            && |q.workers| == |p.workers|
            && (forall i :: 0 <= i < |q.tasks| ==> q.tasks[i] < bound)
            && (forall w :: 0 <= w < |q.workers| && q.workers[w].Running? ==> q.workers[w].task < bound)
            && (forall w :: 0 <= w < |q.workers| ==>
                  (q.workers[w].Running? <==> p.workers[w].Running? || (b == P.Look(w) && p.tasks != [])))
  {
  }

  lemma PoolFinishes(p: P.State, w: nat)
    requires w < |p.workers| && p.workers[w].Running?
    ensures P.Enabled(p, P.Finish(w))
    ensures var q := P.Apply(p, P.Finish(w));
            && q.tasks == p.tasks && q.workers == p.workers[w := P.Ready]
            && q.accepted == p.accepted && q.finished == p.finished + [p.workers[w].task]
  {
  }

  lemma StepTasks(env: Env, s: State, a: Action)
    requires TasksInv(s) && Enabled(s, a)
    ensures TasksInv(Apply(env, s, a))
  {
    match a {
      case Deliver(message) => StepTasksAtDelivery(env, s, message);
      case PoolStep(b) => StepTasksInPool(env, s, b);
      case Work(w, now) => StepTasksAtWork(env, s, w, now);
      case FinishTask(w) => StepTasksAtFinish(env, s, w);
      case _ =>
    }
  }

  lemma StepTasksAtDelivery(env: Env, s: State, message: string)
    requires TasksInv(s) && Enabled(s, Deliver(message))
    ensures TasksInv(Apply(env, s, Deliver(message)))
  {
  }

  lemma StepTasksInPool(env: Env, s: State, b: P.Action)
    requires TasksInv(s) && Enabled(s, PoolStep(b))
    ensures TasksInv(Apply(env, s, PoolStep(b)))
  {
    PoolMovesTasks(s.pool, b, |s.messages|);
    hide P.Apply;
    var t := Apply(env, s, PoolStep(b));
    assert |t.stages| == |s.stages|;
  }

  lemma WorkKeepsTask(env: Env, s: State, w: nat, now: int)
    requires Busy(s, w) && !s.stages[w].NoTask?
    ensures var t := WorkStep(env, s, w, now);
            && t.pool == s.pool && t.messages == s.messages
            && w < |t.stages| && t.stages == s.stages[w := t.stages[w]] && !t.stages[w].NoTask?
  {
    hide AddTo, HistoryOf, Alerts.UpdateSpec, Interpret, PointAt;
    match s.stages[w]
    case Fresh =>
    case Evaluated(_) =>
    case _ =>
  }

  lemma StepTasksAtWork(env: Env, s: State, w: nat, now: int)
    requires TasksInv(s) && Enabled(s, Work(w, now))
    ensures TasksInv(Apply(env, s, Work(w, now)))
  {
    WorkKeepsTask(env, s, w, now);
    hide WorkStep, P.Enabled;
  }

  lemma StepTasksAtFinish(env: Env, s: State, w: nat)
    requires TasksInv(s) && Enabled(s, FinishTask(w))
    ensures TasksInv(Apply(env, s, FinishTask(w)))
  {
    PoolFinishes(s.pool, w);
    hide P.Apply, P.Enabled;
  }

  lemma HistoryGrows(histories: Histories, a: Addition, max: nat, h: string)
    requires max > 0
    ensures HistoryOf(histories, h) != [] ==> HistoryOf(AddTo(histories, a, max), h) != []
    ensures a.hostname != "" ==> HistoryOf(AddTo(histories, a, max), a.hostname) != []
  {
  }

  /** Histories and stored hosts only grow. */
  ghost predicate Grows(s: State, t: State) {
    && (forall h: string :: HistoryOf(s.histories, h) != [] ==> HistoryOf(t.histories, h) != [])
    && (forall h <- s.stored :: h in t.stored)
  }

  /** What the other workers hold stays in order while one worker moves to a stage in order. */
  lemma StagesKept(s: State, t: State, w: nat)
    requires forall v :: 0 <= v < |s.stages| ==> StageInv(s, s.stages[v])
    requires Grows(s, t) && |t.stages| == |s.stages|
    requires forall v :: 0 <= v < |s.stages| && v != w ==> t.stages[v] == s.stages[v]
    requires w < |s.stages| ==> StageInv(t, t.stages[w])
    ensures forall v :: 0 <= v < |t.stages| ==> StageInv(t, t.stages[v])
  {
    forall v | 0 <= v < |t.stages|
      ensures StageInv(t, t.stages[v])
    {
      if v != w {
        assert StageInv(s, s.stages[v]);
      }
    }
  }

  lemma WorkGrows(env: Env, s: State, w: nat, now: int)
    requires env.historyMax > 0 && Busy(s, w)
    ensures Grows(s, WorkStep(env, s, w, now))
  {
    hide AddTo, HistoryOf, Alerts.UpdateSpec, Interpret, PointAt;
    if s.stages[w].Parsed? {
      var m := s.stages[w].metrics;
      forall h: string
        ensures HistoryOf(s.histories, h) != [] ==> HistoryOf(WorkStep(env, s, w, now).histories, h) != []
      {
        HistoryGrows(s.histories, Addition(m.hostname, PointAt(m, now)), env.historyMax, h);
      }
    }
  }

  lemma WorkKeepsStage(env: Env, s: State, w: nat, now: int)
    requires env.historyMax > 0 && Busy(s, w) && StageInv(s, s.stages[w])
    ensures var t := WorkStep(env, s, w, now); |t.stages| == |s.stages| && StageInv(t, t.stages[w])
    ensures var t := WorkStep(env, s, w, now); forall v :: 0 <= v < |s.stages| && v != w ==> t.stages[v] == s.stages[v]
  {
    hide AddTo, HistoryOf, Alerts.UpdateSpec, Interpret, PointAt;
    match s.stages[w] {
      case Fresh => ParserRejectsEmptyHostname(env.lib, s.messages[s.pool.workers[w].task]);
      case Parsed(m) => HistoryGrows(s.histories, Addition(m.hostname, PointAt(m, now)), env.historyMax, m.hostname);
      case _ =>
    }
  }

  lemma WorkKeepsAlerts(env: Env, s: State, w: nat, now: int)
    requires env.historyMax > 0 && AlertsInv(s) && Busy(s, w) && StageInv(s, s.stages[w])
    ensures AlertsInv(WorkStep(env, s, w, now))
  {
    WorkGrows(env, s, w, now);
    hide AddTo, HistoryOf, Alerts.UpdateSpec, Interpret, PointAt;
    var t := WorkStep(env, s, w, now);
    forall key <- t.alerts
      ensures HistoryOf(t.histories, t.alerts[key].hostname) != []
    {
      if s.stages[w].Recorded? {
        Alerts.UpdateHosts(s.alerts, s.stages[w].metrics, now, env.settings, key);
      }
    }
  }

  lemma StepHostsAtWork(env: Env, s: State, w: nat, now: int)
    requires env.historyMax > 0 && HostsInv(s) && Busy(s, w)
    ensures HostsInv(WorkStep(env, s, w, now))
  {
    var t := WorkStep(env, s, w, now);
    assert StageInv(s, s.stages[w]);
    WorkGrows(env, s, w, now);
    WorkKeepsStage(env, s, w, now);
    StagesKept(s, t, w);
    WorkKeepsAlerts(env, s, w, now);
    hide AlertsInv, AddTo, HistoryOf, Alerts.UpdateSpec, Interpret, PointAt, Busy;
  }

  /** Steps that touch no host leave the hosts in order. */
  lemma StepHostsElsewhere(s: State, t: State, w: nat)
    requires HostsInv(s) && |t.stages| == |s.stages|
    requires forall v :: 0 <= v < |s.stages| && v != w ==> t.stages[v] == s.stages[v]
    requires w < |s.stages| ==> t.stages[w] == s.stages[w] || t.stages[w].Fresh? || t.stages[w].NoTask?
    requires t.histories == s.histories && t.alerts == s.alerts
    requires t.stored == s.stored && t.tracked == s.tracked && t.scan == s.scan
    ensures HostsInv(t)
  {
    StagesKept(s, t, w);
  }

  lemma StepHostsAtTimer(env: Env, s: State, a: Action)
    requires HostsInv(s) && Enabled(s, a) && (a.TimerFires? || a.TimerReports?)
    ensures HostsInv(Apply(env, s, a))
  {
    hide HistoryOf, GetStatus;
    var t := Apply(env, s, a);
    StagesKept(s, t, |s.stages|);
    if a.TimerReports? {
      assert s.scan[0] in s.scan;
    }
  }

  lemma StepHosts(env: Env, s: State, a: Action)
    requires env.historyMax > 0 && HostsInv(s) && Enabled(s, a)
    ensures HostsInv(Apply(env, s, a))
  {
    hide HostsInv, P.Enabled, P.Apply, WorkStep, HistoryOf, GetStatus;
    match a {
      case Deliver(_) => StepHostsElsewhere(s, Apply(env, s, a), |s.stages|);
      case PoolStep(b) => StepHostsElsewhere(s, Apply(env, s, a), if b.Look? then b.worker else |s.stages|);
      case Work(w, now) => StepHostsAtWork(env, s, w, now);
      case FinishTask(w) => StepHostsElsewhere(s, Apply(env, s, a), w);
      case _ => StepHostsAtTimer(env, s, a);
    }
  }

  /** A pool step that neither submits nor finishes a task leaves these logs as they are. */
  lemma PoolKeepsLogs(p: P.State, b: P.Action)
    requires P.Enabled(p, b) && !b.Submit? && !b.Finish?
    ensures P.Apply(p, b).accepted == p.accepted && P.Apply(p, b).finished == p.finished
  {
  }

  lemma StepAccountAtDelivery(env: Env, s: State, message: string)
    requires AccountInv(s) && Enabled(s, Deliver(message))
    ensures AccountInv(Apply(env, s, Deliver(message)))
  {
    hide P.Times;
    var t := Apply(env, s, Deliver(message));
    forall id: nat
      ensures P.Times(t.pool.accepted, id) + P.Times(t.dropped, id) == if id < |t.messages| then 1 else 0
      ensures P.Times(t.pool.finished, id) == P.Times(t.rejected, id) + P.Times(t.completed, id)
    {
      P.TimesAppend(s.pool.accepted, |s.messages|, id);
      P.TimesAppend(s.dropped, |s.messages|, id);
    }
  }

  lemma FinishRecordsTask(env: Env, s: State, w: nat)
    requires Enabled(s, FinishTask(w))
    ensures var t, task := Apply(env, s, FinishTask(w)), s.pool.workers[w].task;
            && t.messages == s.messages && t.dropped == s.dropped
            && t.pool.accepted == s.pool.accepted && t.pool.finished == s.pool.finished + [task]
            && if s.stages[w].Done? then t.rejected == s.rejected && t.completed == s.completed + [task]
               else t.completed == s.completed && t.rejected == s.rejected + [task]
  {
    PoolFinishes(s.pool, w);
    hide P.Apply, P.Enabled;
  }

  lemma StepAccountAtFinish(env: Env, s: State, w: nat)
    requires AccountInv(s) && Enabled(s, FinishTask(w))
    ensures AccountInv(Apply(env, s, FinishTask(w)))
  {
    FinishRecordsTask(env, s, w);
    hide P.Times, Apply;
    var t, task := Apply(env, s, FinishTask(w)), s.pool.workers[w].task;
    forall id: nat
      ensures P.Times(t.pool.finished, id) == P.Times(t.rejected, id) + P.Times(t.completed, id)
    {
      P.TimesAppend(s.pool.finished, task, id);
      P.TimesAppend(s.rejected, task, id);
      P.TimesAppend(s.completed, task, id);
    }
  }

  lemma AccountUntouched(s: State, t: State)
    requires AccountInv(s) && t.messages == s.messages
    requires t.pool.accepted == s.pool.accepted && t.pool.finished == s.pool.finished
    requires t.dropped == s.dropped && t.rejected == s.rejected && t.completed == s.completed
    ensures AccountInv(t)
  {
  }

  lemma WorkKeepsAccount(env: Env, s: State, w: nat, now: int)
    requires AccountInv(s) && Busy(s, w)
    ensures AccountInv(WorkStep(env, s, w, now))
  {
    hide AccountInv, Interpret, AddTo, Alerts.UpdateSpec, PointAt;
    AccountUntouched(s, WorkStep(env, s, w, now));
  }

  lemma StepAccount(env: Env, s: State, a: Action)
    requires AccountInv(s) && Enabled(s, a)
    ensures AccountInv(Apply(env, s, a))
  {
    hide AccountInv, P.Apply, P.Enabled, WorkStep, GetStatus;
    match a {
      case Deliver(message) => StepAccountAtDelivery(env, s, message);
      case Work(w, now) => WorkKeepsAccount(env, s, w, now);
      case PoolStep(b) =>
        PoolKeepsLogs(s.pool, b);
        AccountUntouched(s, Apply(env, s, a));
      case FinishTask(w) => StepAccountAtFinish(env, s, w);
      case _ => AccountUntouched(s, Apply(env, s, a));
    }
  }

  /** What was told stays true while messages and stored hosts only grow and no other worker
      takes or changes a task. */
  lemma WorkersKept(env: Env, s: State, t: State, w: nat)
    requires WorkersTell(env, s) && s.messages <= t.messages && (forall h <- s.stored :: h in t.stored)
    requires forall v: nat :: v != w && Busy(t, v) ==>
               Busy(s, v) && t.stages[v] == s.stages[v] && t.pool.workers[v].task == s.pool.workers[v].task
    requires Busy(t, w) ==> Tells(env, t, t.stages[w], t.messages[t.pool.workers[w].task])
    ensures WorkersTell(env, t)
  {
    hide Interpret;
    forall v: nat | Busy(t, v)
      ensures Tells(env, t, t.stages[v], t.messages[t.pool.workers[v].task])
    {
      if v != w {
        assert Busy(s, v);
      }
    }
  }

  lemma VerdictsKept(env: Env, s: State, t: State, w: nat)
    requires VerdictsInv(env, s) && s.messages <= t.messages && (forall h <- s.stored :: h in t.stored)
    requires t.completed == s.completed && t.rejected == s.rejected
    requires forall v: nat :: v != w && Busy(t, v) ==>
               Busy(s, v) && t.stages[v] == s.stages[v] && t.pool.workers[v].task == s.pool.workers[v].task
    requires Busy(t, w) ==> Tells(env, t, t.stages[w], t.messages[t.pool.workers[w].task])
    ensures VerdictsInv(env, t)
  {
    WorkersKept(env, s, t, w);
    hide Interpret, WorkersTell, Tells, Busy;
  }

  lemma StepVerdictsAtDelivery(env: Env, s: State, message: string)
    requires TasksInv(s) && VerdictsInv(env, s) && Enabled(s, Deliver(message))
    ensures VerdictsInv(env, Apply(env, s, Deliver(message)))
  {
    hide VerdictsInv;
    VerdictsKept(env, s, Apply(env, s, Deliver(message)), |s.stages|);
  }

  /** A pool step changes what a worker runs only by giving it a task. */
  lemma PoolKeepsRunners(p: P.State, b: P.Action, v: nat)
    requires P.Enabled(p, b) && !b.Submit? && !b.Finish? && v < |p.workers|
    ensures |P.Apply(p, b).workers| == |p.workers|
    ensures P.Apply(p, b).workers[v].Running? && !(b == P.Look(v) && p.tasks != []) ==>
              p.workers[v] == P.Apply(p, b).workers[v]
  {
  }

  lemma StepVerdictsInPool(env: Env, s: State, b: P.Action)
    requires TasksInv(s) && VerdictsInv(env, s) && Enabled(s, PoolStep(b))
    ensures VerdictsInv(env, Apply(env, s, PoolStep(b)))
  {
    var t := Apply(env, s, PoolStep(b));
    var w := if b.Look? && s.pool.tasks != [] then b.worker else |s.stages|;
    forall v: nat | v < |s.stages|
      ensures |t.pool.workers| == |s.pool.workers|
      ensures v != w && t.pool.workers[v].Running? ==> s.pool.workers[v] == t.pool.workers[v]
    {
      PoolKeepsRunners(s.pool, b, v);
    }
    hide VerdictsInv, P.Apply, P.Enabled;
    VerdictsKept(env, s, t, w);
  }

  lemma WorkTells(env: Env, s: State, w: nat, now: int)
    requires Busy(s, w) && Tells(env, s, s.stages[w], s.messages[s.pool.workers[w].task])
    ensures var t := WorkStep(env, s, w, now);
            w < |t.stages| && Tells(env, t, t.stages[w], s.messages[s.pool.workers[w].task])
  {
    hide AddTo, HistoryOf, Alerts.UpdateSpec, Interpret, PointAt, P.Enabled;
    match s.stages[w]
    case Fresh =>
    case Evaluated(_) =>
    case _ =>
  }

  lemma StepVerdictsAtWork(env: Env, s: State, w: nat, now: int)
    requires VerdictsInv(env, s) && Enabled(s, Work(w, now))
    ensures VerdictsInv(env, Apply(env, s, Work(w, now)))
  {
    hide AddTo, Alerts.UpdateSpec, Interpret, PointAt, Tells;
    WorkTells(env, s, w, now);
    VerdictsKept(env, s, WorkStep(env, s, w, now), w);
  }

  lemma FinishFreesWorker(env: Env, s: State, w: nat)
    requires WorkersTell(env, s) && Enabled(s, FinishTask(w))
    ensures var t := Apply(env, s, FinishTask(w));
            WorkersTell(env, t) && t.messages == s.messages && t.stored == s.stored
  {
    PoolFinishes(s.pool, w);
    hide P.Apply, P.Enabled, WorkersTell, Tells;
    WorkersKept(env, s, Apply(env, s, FinishTask(w)), w);
  }

  lemma StepVerdictsAtFinish(env: Env, s: State, w: nat)
    requires VerdictsInv(env, s) && Enabled(s, FinishTask(w)) && !s.stages[w].StoreFailed?
    ensures VerdictsInv(env, Apply(env, s, FinishTask(w)))
  {
    FinishFreesWorker(env, s, w);
    FinishRecordsTask(env, s, w);
    assert Tells(env, s, s.stages[w], s.messages[s.pool.workers[w].task]);
    hide Apply, WorkersTell, Interpret, P.Enabled;
  }

  lemma StepVerdicts(env: Env, s: State, a: Action)
    requires TasksInv(s) && HostsInv(s) && VerdictsInv(env, s) && Enabled(s, a)
    ensures VerdictsInv(env, Apply(env, s, a))
  {
    match a {
      case Deliver(message) => StepVerdictsAtDelivery(env, s, message);
      case PoolStep(b) => StepVerdictsInPool(env, s, b);
      case Work(w, now) => StepVerdictsAtWork(env, s, w, now);
      case FinishTask(w) =>
        assert StageInv(s, s.stages[w]);
        StepVerdictsAtFinish(env, s, w);
      case _ =>
        hide VerdictsInv, GetStatus;
        VerdictsKept(env, s, Apply(env, s, a), |s.stages|);
    }
  }

  lemma DeliveredStays(env: Env, before: seq<string>, after: seq<string>, m: SystemMetrics)
    requires before <= after && WasDelivered(env, before, m)
    ensures WasDelivered(env, after, m)
  {
    hide Interpret;
    var id: nat :| id < |before| && Interpret(env.lib, before[id]) == Success(m);
    assert after[id] == before[id];
  }

  lemma StepOriginAtWork(env: Env, s: State, w: nat, now: int)
    requires OriginInv(env, s) && WorkersTell(env, s) && Busy(s, w)
    ensures OriginInv(env, WorkStep(env, s, w, now))
  {
    hide AddTo, HistoryOf, Alerts.UpdateSpec, Interpret, PointAt;
    assert Tells(env, s, s.stages[w], s.messages[s.pool.workers[w].task]);
    if s.stages[w].Evaluated? {
      assert WasDelivered(env, s.messages, s.stages[w].metrics);
    }
    hide WasDelivered;
  }

  lemma VerdictsTell(env: Env, s: State)
    requires VerdictsInv(env, s)
    ensures WorkersTell(env, s)
  {
  }

  lemma OriginKept(env: Env, s: State, t: State)
    requires OriginInv(env, s) && s.messages <= t.messages && t.stored == s.stored
    ensures OriginInv(env, t)
  {
    hide WasDelivered;
    forall h <- t.stored
      ensures WasDelivered(env, t.messages, t.stored[h].metrics)
    {
      DeliveredStays(env, s.messages, t.messages, s.stored[h].metrics);
    }
  }

  lemma StepOrigin(env: Env, s: State, a: Action)
    requires OriginInv(env, s) && WorkersTell(env, s) && Enabled(s, a)
    ensures OriginInv(env, Apply(env, s, a))
  {
    hide OriginInv, WorkersTell, WorkStep, P.Apply, P.Enabled, GetStatus;
    if a.Work? {
      StepOriginAtWork(env, s, a.worker, a.now);
    } else {
      OriginKept(env, s, Apply(env, s, a));
    }
  }

  lemma StepInv(env: Env, s: State, a: Action)
    requires Inv(env, s) && Enabled(s, a)
    ensures Inv(env, Apply(env, s, a))
  {
    hide TasksInv, HostsInv, AccountInv, VerdictsInv, OriginInv, P.Inv, Apply;
    assert WorkersTell(env, s) by { VerdictsTell(env, s); }
    StepOrigin(env, s, a);
    StepVerdicts(env, s, a);
    StepPool(env, s, a);
    StepTasks(env, s, a);
    StepHosts(env, s, a);
    StepAccount(env, s, a);
  }

  lemma {:induction false} RunInv(env: Env, s: State, actions: seq<Action>, t: State)
    requires Inv(env, s) && Leads(env, s, actions, t)
    ensures Inv(env, t)
    decreases actions
  {
    hide Inv, Apply;
    if actions != [] {
      StepInv(env, s, actions[0]);
      RunInv(env, Apply(env, s, actions[0]), actions[1..], t);
    }
  }

  // ---------------------------------------------------------------------------
  // Results, for every interleaving
  // ---------------------------------------------------------------------------

  /** Each delivered message is in exactly one place: dropped, queued, running, rejected or stored. */
  lemma MessagesAreConserved(env: Env, s: State, actions: seq<Action>, t: State, id: nat)
    requires Init(env, s) && Leads(env, s, actions, t) && id < |t.messages|
    ensures P.Times(t.dropped, id) + P.Times(t.pool.tasks, id) + P.RunningCount(t.pool.workers, id)
            + P.Times(t.rejected, id) + P.Times(t.completed, id) == 1
    ensures id in t.completed ==> IsStored(env, t, t.messages[id])
    ensures id in t.rejected ==> Interpret(env.lib, t.messages[id]).Failure?
  {
    InitInv(env, s);
    RunInv(env, s, actions, t);
    VerdictsAreRight(env, s, actions, t, id);
    hide P.Times, Interpret;
    assert P.Times(t.pool.accepted, id) + P.Times(t.dropped, id) == 1;
    assert P.Times(t.pool.finished, id) == P.Times(t.rejected, id) + P.Times(t.completed, id);
    assert P.Times(t.pool.started, id) == P.RunningCount(t.pool.workers, id) + P.Times(t.pool.finished, id);
    AcceptedSplits(t.pool.started, t.pool.tasks, id);
  }

  lemma AcceptedSplits(started: seq<nat>, tasks: seq<nat>, id: nat)
    ensures P.Times(started + tasks, id) == P.Times(started, id) + P.Times(tasks, id)
  {
    assert multiset(started + tasks) == multiset(started) + multiset(tasks);
  }

  /** A delivered message is dropped exactly by a stopping pool and by one whose queue is full; any other
      goes to the end of the queue. */
  lemma DroppedExactly(env: Env, s: State, actions: seq<Action>, t: State, message: string)
    requires Init(env, s) && Leads(env, s, actions, t) && Enabled(t, Deliver(message))
    ensures var u, id := Apply(env, t, Deliver(message)), |t.messages|;
            && u.messages == t.messages + [message]
            && if t.pool.stopping || |t.pool.tasks| == s.pool.maxQueueSize then
                 u.dropped == t.dropped + [id] && u.pool == t.pool
               else u.dropped == t.dropped && u.pool.tasks == t.pool.tasks + [id]
  {
    InitInv(env, s);
    RunInv(env, s, actions, t);
    BoundIsFixed(env, s, actions, t);
    assert |t.pool.tasks| <= t.pool.maxQueueSize by { BoundHolds(env, t); }
    hide Inv, Init, Leads;
  }

  lemma BoundHolds(env: Env, t: State)
    requires Inv(env, t)
    ensures |t.pool.tasks| <= t.pool.maxQueueSize
  {
    hide TasksInv, HostsInv, AccountInv, VerdictsInv, OriginInv;
  }

  lemma {:induction false} BoundIsFixed(env: Env, s: State, actions: seq<Action>, t: State)
    requires Leads(env, s, actions, t)
    ensures t.pool.maxQueueSize == s.pool.maxQueueSize
    decreases actions
  {
    if actions != [] {
      StepKeepsBound(env, s, actions[0]);
      hide Apply, Enabled;
      BoundIsFixed(env, Apply(env, s, actions[0]), actions[1..], t);
    }
  }

  lemma StepKeepsBound(env: Env, s: State, a: Action)
    requires Enabled(s, a)
    ensures Apply(env, s, a).pool.maxQueueSize == s.pool.maxQueueSize
  {
    hide AddTo, Alerts.UpdateSpec, Interpret, PointAt, GetStatus;
    match a
    case Work(w, now) =>
      if !s.stages[w].NoTask? {
        WorkKeepsTask(env, s, w, now);
      }
      hide WorkStep;
    case PoolStep(_) =>
    case _ =>
  }

  /** A step that the server takes by itself, new messages, the timer and spurious wakeups left aside. */
  predicate Proceeds(a: Action) {
    (a.PoolStep? && P.Proceeds(a.action)) || a.Work? || a.FinishTask?
  }

  /** A server that can no longer proceed has processed every message: each was dropped, or accepted by
      the parser and stored, or refused by it. */
  lemma QuietServerHasProcessedEverything(env: Env, s: State, actions: seq<Action>, t: State, id: nat)
    requires Init(env, s) && Leads(env, s, actions, t) && id < |t.messages|
    requires forall a: Action :: Enabled(t, a) ==> !Proceeds(a)
    ensures P.Times(t.dropped, id) + P.Times(t.rejected, id) + P.Times(t.completed, id) == 1
    ensures var r := Interpret(env.lib, t.messages[id]);
            id !in t.dropped ==>
              if r.Success? then id in t.completed && r.value.hostname in t.stored else id in t.rejected
  {
    MessagesAreConserved(env, s, actions, t, id);
    InitInv(env, s);
    RunInv(env, s, actions, t);
    QuietPoolIsIdle(env, t);
    P.NobodyRuns(t.pool.workers, id);
    hide Interpret, Inv, Leads, Init, P.RunningCount;
    assert P.Times([], id) == 0;
  }

  lemma QuietPoolIsIdle(env: Env, t: State)
    requires Inv(env, t)
    requires forall a: Action :: Enabled(t, a) ==> !Proceeds(a)
    ensures t.pool.tasks == [] && forall w :: 0 <= w < |t.pool.workers| ==> !t.pool.workers[w].Running?
  {
    hide P.Inv, HostsInv, AccountInv, VerdictsInv, OriginInv;
    forall w | 0 <= w < |t.pool.workers|
      ensures t.pool.workers[w].Asleep? || t.pool.workers[w].Exited?
    {
      QuietWorker(t, w);
    }
    if t.pool.tasks != [] {
      P.TaskCallsForNotify(t.pool);
      var b: P.Action :| P.Enabled(t.pool, b) && P.Proceeds(b);
      QuietAction(t, b);
    }
  }

  lemma QuietWorker(t: State, w: nat)
    requires TasksInv(t) && w < |t.pool.workers|
    requires forall a: Action :: Enabled(t, a) ==> !Proceeds(a)
    ensures t.pool.workers[w].Asleep? || t.pool.workers[w].Exited?
  {
    assert !Enabled(t, PoolStep(P.Look(w))) by { assert Proceeds(PoolStep(P.Look(w))); }
    assert !Enabled(t, Work(w, 0)) by { assert Proceeds(Work(w, 0)); }
    assert !Enabled(t, FinishTask(w)) by { assert Proceeds(FinishTask(w)); }
  }

  lemma QuietAction(t: State, b: P.Action)
    requires TasksInv(t) && P.Enabled(t.pool, b) && P.Proceeds(b)
    requires forall w :: 0 <= w < |t.pool.workers| ==> t.pool.workers[w].Asleep? || t.pool.workers[w].Exited?
    ensures Enabled(t, PoolStep(b)) && Proceeds(PoolStep(b))
  {
  }

  /** Every host the tracker knows is stored; every stored host and every host with an alert has a
      history. */
  lemma HostsAreNested(env: Env, s: State, actions: seq<Action>, t: State)
    requires Init(env, s) && Leads(env, s, actions, t)
    ensures t.tracked.Keys <= t.stored.Keys <= t.histories.Keys
    ensures forall key <- t.alerts :: HistoryOf(t.histories, t.alerts[key].hostname) != []
    ensures forall h <- t.stored :: HistoryOf(t.histories, h) != []
  {
    InitInv(env, s);
    RunInv(env, s, actions, t);
  }

  /** Every stored record is under its own host and is the parse of a delivered message. */
  lemma StoredRecordsWereDelivered(env: Env, s: State, actions: seq<Action>, t: State)
    requires Init(env, s) && Leads(env, s, actions, t)
    ensures forall h <- t.stored ::
              var m := t.stored[h].metrics;
              m.hostname == h && exists id: nat :: id < |t.messages| && Interpret(env.lib, t.messages[id]) == Success(m)
  {
    hide Interpret, TasksInv, HostsInv, AccountInv, VerdictsInv, P.Inv;
    InitInv(env, s);
    RunInv(env, s, actions, t);
    forall h <- t.stored
      ensures exists id: nat :: id < |t.messages| && Interpret(env.lib, t.messages[id]) == Success(t.stored[h].metrics)
    {
      assert WasDelivered(env, t.messages, t.stored[h].metrics);
    }
  }

  /** The guards against an empty host name in the stores never fire. */
  lemma EmptyNameGuardsNeverFire(env: Env, s: State, actions: seq<Action>, t: State, w: nat)
    requires Init(env, s) && Leads(env, s, actions, t) && w < |t.stages|
    ensures !t.stages[w].StoreFailed?
    ensures Carries(t.stages[w]) ==> t.stages[w].metrics.hostname != ""
  {
    InitInv(env, s);
    RunInv(env, s, actions, t);
    assert StageInv(t, t.stages[w]);
  }

  /** A completed message was accepted by the parser and its host is stored; a rejected one was
      refused by the parser. */
  lemma VerdictsAreRight(env: Env, s: State, actions: seq<Action>, t: State, id: nat)
    requires Init(env, s) && Leads(env, s, actions, t)
    ensures id in t.completed ==>
              id < |t.messages| && IsStored(env, t, t.messages[id])
    ensures id in t.rejected ==> id < |t.messages| && Interpret(env.lib, t.messages[id]).Failure?
  {
    InitInv(env, s);
    RunInv(env, s, actions, t);
    hide Interpret, TasksInv, HostsInv, AccountInv, P.Inv;
  }

  /** When the pool has been stopped and its stop has returned, every delivered message was dropped,
      or accepted by the parser and stored, or refused by it, and that once. */
  lemma StoppedServerHasProcessedEverything(env: Env, s: State, actions: seq<Action>, t: State, c: nat, id: nat)
    requires Init(env, s) && Leads(env, s, actions, t) && id < |t.messages|
    requires c < |t.pool.callers| && t.pool.callers[c].Stopped?
    ensures P.Times(t.dropped, id) + P.Times(t.rejected, id) + P.Times(t.completed, id) == 1
    ensures var r := Interpret(env.lib, t.messages[id]);
            id !in t.dropped ==>
              if r.Success? then id in t.completed && r.value.hostname in t.stored else id in t.rejected
  {
    VerdictsAreRight(env, s, actions, t, id);
    hide Interpret;
    InitInv(env, s);
    RunInv(env, s, actions, t);
    MessagesAreConserved(env, s, actions, t, id);
    P.AllExitedMeansFinished(t.pool);
    P.NobodyRuns(t.pool.workers, id);
    assert P.Times([], id) == 0;
  }
}
