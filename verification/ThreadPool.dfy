/** The worker pool of src/thread/ThreadPool.cpp: a bounded queue under a mutex, a condition
    variable, workers that drain the queue before they exit, and callers that submit and stop.

    The class holds the critical sections. The transition system interleaves them: what happens
    under the mutex is one step, while notifying is a step of its own, because the code notifies
    after unlocking. A task is a number that stands for the function object. */
module ThreadPool {
  import opened Wrappers

  type Task = nat

  /** What a worker that evaluates the wait predicate under the mutex does next. */
  datatype Turn = Wait | Exit | Take(task: Task)

  predicate Accepts(tasks: seq<Task>, stopping: bool, maxQueueSize: nat) {
    !stopping && |tasks| < maxQueueSize
  }

  function TurnOf(tasks: seq<Task>, stopping: bool): Turn {
    if tasks != [] then Take(tasks[0]) else if stopping then Exit else Wait
  }

  datatype PoolError = NoThreads | NoQueue

  /** The checks of the constructor, in its order. */
  method NewTaskQueue(threadCount: nat, maxQueueSize: nat) returns (r: Result<TaskQueue, PoolError>)
    ensures r.Failure? ==> r.error == if threadCount == 0 then NoThreads else NoQueue
    ensures r.Failure? <==> threadCount == 0 || maxQueueSize == 0
    ensures r.Success? ==>
              && fresh(r.value) && r.value.Valid() && r.value.maxQueueSize == maxQueueSize
              && r.value.tasks == [] && !r.value.stopping
  {
    if threadCount == 0 {
      return Failure(NoThreads);
    }
    if maxQueueSize == 0 {
      return Failure(NoQueue);
    }
    var queue := new TaskQueue(maxQueueSize);
    return Success(queue);
  }

  /** The state protected by the mutex, and the bodies of the locked blocks. */
  class TaskQueue {
    const maxQueueSize: nat
    var tasks: seq<Task>
    var stopping: bool

    ghost predicate Valid()
      reads this
    {
      |tasks| <= maxQueueSize
    }

    constructor (maxQueueSize: nat)
      ensures Valid() && this.maxQueueSize == maxQueueSize && tasks == [] && !stopping
    {
      this.maxQueueSize := maxQueueSize;
      tasks, stopping := [], false;
    }

    /** The locked block of `trySubmit`. */
    method TrySubmit(task: Task) returns (accepted: bool)
      requires Valid()
      modifies this`tasks
      ensures Valid()
      ensures accepted <==> !stopping && |old(tasks)| < maxQueueSize
      ensures tasks == old(tasks) + if accepted then [task] else []
    {
      if stopping {
        return false;
      }
      if |tasks| >= maxQueueSize {
        return false;
      }
      tasks := tasks + [task];
      return true;
    }

    /** The locked block of `stop`; a later call finds the flag set and returns at once. */
    method BeginStop() returns (first: bool)
      requires Valid()
      modifies this`stopping
      ensures Valid() && stopping && first == !old(stopping)
    {
      if stopping {
        return false;
      }
      stopping := true;
      return true;
    }

    /** The locked block of `workerLoop`, from the wait predicate on. */
    method NextTurn() returns (turn: Turn)
      requires Valid()
      modifies this`tasks
      ensures Valid()
      ensures turn.Take? <==> old(tasks) != []
      ensures turn.Exit? <==> old(tasks) == [] && stopping
      ensures turn == TurnOf(old(tasks), stopping)
      ensures turn.Take? ==> old(tasks) == [turn.task] + tasks
      ensures !turn.Take? ==> tasks == old(tasks) == []
    {
      if !(stopping || tasks != []) {
        return Wait;
      }
      if stopping && tasks == [] {
        return Exit;
      }
      var task := tasks[0];
      tasks := tasks[1..];
      return Take(task);
    }
  }

  // ---------------------------------------------------------------------------
  // Transition system
  // ---------------------------------------------------------------------------

  /** Ready: about to lock the mutex and look. Asleep: in the wait set of the condition variable. */
  datatype Worker = Ready | Asleep | Running(task: Task) | Exited

  /** Where a caller of the pool stands. Joining(i) has joined the first i workers; Stopped is the
      return of the `stop` that set the flag. */
  datatype Caller = Idle | MustNotifyOne | MustNotifyAll | Joining(joined: nat) | Stopped

  /** `accepted`, `started` and `finished` record submissions, dequeues and completions in order. */
  datatype State = State(
    maxQueueSize: nat,
    tasks: seq<Task>,
    stopping: bool,
    workers: seq<Worker>,
    callers: seq<Caller>,
    accepted: seq<Task>,
    started: seq<Task>,
    finished: seq<Task>)

  datatype Action =
    | Submit(caller: nat, task: Task)
    | NotifyOne(caller: nat, woken: nat)
    | NotifyNobody(caller: nat)
    | Stop(caller: nat)
    | NotifyAll(caller: nat)
    | Join(caller: nat)
    | Look(worker: nat)
    | SpuriousWakeup(worker: nat)
    | Finish(worker: nat)

  ghost predicate SomeAsleep(workers: seq<Worker>) {
    exists i :: 0 <= i < |workers| && workers[i].Asleep?
  }

  ghost predicate Enabled(s: State, a: Action) {
    match a
    case Submit(c, _) => c < |s.callers| && s.callers[c].Idle?
    case NotifyOne(c, w) =>
      c < |s.callers| && s.callers[c].MustNotifyOne? && w < |s.workers| && s.workers[w].Asleep?
    case NotifyNobody(c) => c < |s.callers| && s.callers[c].MustNotifyOne? && !SomeAsleep(s.workers)
    case Stop(c) => c < |s.callers| && s.callers[c].Idle?
    case NotifyAll(c) => c < |s.callers| && s.callers[c].MustNotifyAll?
    case Join(c) =>
      && c < |s.callers| && s.callers[c].Joining?
      && (s.callers[c].joined < |s.workers| ==> s.workers[s.callers[c].joined].Exited?)
    case Look(w) => w < |s.workers| && s.workers[w].Ready?
    case SpuriousWakeup(w) => w < |s.workers| && s.workers[w].Asleep?
    case Finish(w) => w < |s.workers| && s.workers[w].Running?
  }

  function WakeAll(workers: seq<Worker>): (woken: seq<Worker>)
    ensures |woken| == |workers|
  {
    seq(|workers|, i requires 0 <= i < |workers| => if workers[i].Asleep? then Ready else workers[i])
  }

  ghost function Apply(s: State, a: Action): State
    requires Enabled(s, a)
  {
    match a
    case Submit(c, task) =>
      if Accepts(s.tasks, s.stopping, s.maxQueueSize) then
        s.(tasks := s.tasks + [task], accepted := s.accepted + [task], callers := s.callers[c := MustNotifyOne])
      else s
    case NotifyOne(c, w) => s.(callers := s.callers[c := Idle], workers := s.workers[w := Ready])
    case NotifyNobody(c) => s.(callers := s.callers[c := Idle])
    case Stop(c) => if s.stopping then s else s.(stopping := true, callers := s.callers[c := MustNotifyAll])
    case NotifyAll(c) => s.(callers := s.callers[c := Joining(0)], workers := WakeAll(s.workers))
    case Join(c) =>
      var i := s.callers[c].joined;
      s.(callers := s.callers[c := if i < |s.workers| then Joining(i + 1) else Stopped])
    case Look(w) =>
      (match TurnOf(s.tasks, s.stopping)
       case Wait => s.(workers := s.workers[w := Asleep])
       case Exit => s.(workers := s.workers[w := Exited])
       case Take(task) =>
         s.(workers := s.workers[w := Running(task)], tasks := s.tasks[1..], started := s.started + [task]))
    case SpuriousWakeup(w) => s.(workers := s.workers[w := Ready])
    case Finish(w) => s.(workers := s.workers[w := Ready], finished := s.finished + [s.workers[w].task])
  }

  ghost predicate Init(s: State) {
    && s.maxQueueSize > 0 && s.workers != []
    && s.tasks == s.accepted == s.started == s.finished == [] && !s.stopping
    && (forall i :: 0 <= i < |s.workers| ==> s.workers[i].Ready?)
    && (forall c :: 0 <= c < |s.callers| ==> s.callers[c].Idle?)
  }

  /** The actions can be taken one after the other and lead from s to t. */
  ghost predicate Leads(s: State, actions: seq<Action>, t: State)
    decreases actions
  {
    if actions == [] then s == t
    else Enabled(s, actions[0]) && Leads(Apply(s, actions[0]), actions[1..], t)
  }

  // ---------------------------------------------------------------------------
  // Counting
  // ---------------------------------------------------------------------------

  function ReadyCount(workers: seq<Worker>): nat {
    if workers == [] then 0 else (if workers[0].Ready? then 1 else 0) + ReadyCount(workers[1..])
  }

  /** Notifications for single tasks still to be made. */
  function OwedCount(callers: seq<Caller>): nat {
    if callers == [] then 0 else (if callers[0].MustNotifyOne? then 1 else 0) + OwedCount(callers[1..])
  }

  /** How often task t occurs in a log. */
  function Times(log: seq<Task>, t: Task): nat {
    multiset(log)[t]
  }

  lemma TimesAppend(log: seq<Task>, x: Task, t: Task)
    ensures Times(log + [x], t) == Times(log, t) + if x == t then 1 else 0
  {
  }

  /** How many workers are running task t. */
  function RunningCount(workers: seq<Worker>, t: Task): nat {
    if workers == [] then 0 else (if workers[0] == Running(t) then 1 else 0) + RunningCount(workers[1..], t)
  }

  function WorkerWeight(w: Worker): nat {
    match w case Exited => 0 case Ready => 1 case _ => 2
  }

  function WorkersWeight(workers: seq<Worker>): nat {
    if workers == [] then 0 else WorkerWeight(workers[0]) + WorkersWeight(workers[1..])
  }

  function CallerWeight(c: Caller, n: nat): nat {
    match c
    case MustNotifyOne => 1
    case MustNotifyAll => n + 2
    case Joining(i) => if i <= n then n - i + 1 else 1
    case _ => 0
  }

  function CallersWeight(callers: seq<Caller>, n: nat): nat {
    if callers == [] then 0 else CallerWeight(callers[0], n) + CallersWeight(callers[1..], n)
  }

  lemma {:induction false} WorkerChanges(workers: seq<Worker>, i: nat, w: Worker)
    requires i < |workers|
    ensures ReadyCount(workers[i := w]) + (if workers[i].Ready? then 1 else 0)
            == ReadyCount(workers) + (if w.Ready? then 1 else 0)
    ensures WorkersWeight(workers[i := w]) + WorkerWeight(workers[i]) == WorkersWeight(workers) + WorkerWeight(w)
  {
    if i == 0 {
      assert workers[0 := w][1..] == workers[1..];
    } else {
      WorkerChanges(workers[1..], i - 1, w);
      assert workers[i := w][1..] == workers[1..][i - 1 := w];
    }
  }

  lemma {:induction false} RunningChanges(workers: seq<Worker>, i: nat, w: Worker, t: Task)
    requires i < |workers|
    ensures RunningCount(workers[i := w], t) + (if workers[i] == Running(t) then 1 else 0)
            == RunningCount(workers, t) + (if w == Running(t) then 1 else 0)
  {
    if i == 0 {
      assert workers[0 := w][1..] == workers[1..];
    } else {
      RunningChanges(workers[1..], i - 1, w, t);
      assert workers[i := w][1..] == workers[1..][i - 1 := w];
    }
  }

  lemma {:induction false} CallerChanges(callers: seq<Caller>, c: nat, x: Caller, n: nat)
    requires c < |callers|
    ensures OwedCount(callers[c := x]) + (if callers[c].MustNotifyOne? then 1 else 0)
            == OwedCount(callers) + (if x.MustNotifyOne? then 1 else 0)
    ensures CallersWeight(callers[c := x], n) + CallerWeight(callers[c], n)
            == CallersWeight(callers, n) + CallerWeight(x, n)
  {
    if c == 0 {
      assert callers[0 := x][1..] == callers[1..];
    } else {
      CallerChanges(callers[1..], c - 1, x, n);
      assert callers[c := x][1..] == callers[1..][c - 1 := x];
    }
  }

  lemma {:induction false} WakingAll(workers: seq<Worker>, t: Task)
    ensures RunningCount(WakeAll(workers), t) == RunningCount(workers, t)
    ensures WorkersWeight(WakeAll(workers)) <= WorkersWeight(workers)
  {
    if workers != [] {
      WakingAll(workers[1..], t);
      assert WakeAll(workers)[1..] == WakeAll(workers[1..]);
    }
  }

  lemma {:induction false} SomeoneIsOwing(callers: seq<Caller>) returns (c: nat)
    requires OwedCount(callers) > 0
    ensures c < |callers| && callers[c].MustNotifyOne?
  {
    if callers[0].MustNotifyOne? {
      c := 0;
    } else {
      c := SomeoneIsOwing(callers[1..]);
      c := c + 1;
    }
  }

  lemma {:induction false} SomeoneIsReady(workers: seq<Worker>) returns (w: nat)
    requires ReadyCount(workers) > 0
    ensures w < |workers| && workers[w].Ready?
  {
    if workers[0].Ready? {
      w := 0;
    } else {
      w := SomeoneIsReady(workers[1..]);
      w := w + 1;
    }
  }

  // ---------------------------------------------------------------------------
  // Invariants
  // ---------------------------------------------------------------------------

  /** Every task taken from the queue is running or has finished, each time it was taken. */
  ghost predicate OnceInv(s: State) {
    forall t: Task :: Times(s.started, t) == RunningCount(s.workers, t) + Times(s.finished, t)
  }

  /** The queue is bounded and first in first out; workers exit only from a drained pool. */
  ghost predicate TasksInv(s: State) {
    && s.maxQueueSize > 0 && s.workers != []
    && |s.tasks| <= s.maxQueueSize
    && s.accepted == s.started + s.tasks
    && (forall i :: 0 <= i < |s.workers| && s.workers[i].Exited? ==> s.stopping && s.tasks == [])
  }

  ghost predicate IsStopper(c: Caller) {
    c.MustNotifyAll? || c.Joining? || c.Stopped?
  }

  /** Shutdown: one caller at most is stopping the pool, and it joins what has exited. */
  ghost predicate StopInv(s: State) {
    && (s.stopping <==> exists c :: 0 <= c < |s.callers| && IsStopper(s.callers[c]))
    && (forall c :: 0 <= c < |s.callers| && s.callers[c].Joining? ==>
          s.callers[c].joined <= |s.workers|
          && forall i :: 0 <= i < s.callers[c].joined ==> s.workers[i].Exited?)
    && (forall c :: 0 <= c < |s.callers| && s.callers[c].Stopped? ==>
          forall i :: 0 <= i < |s.workers| ==> s.workers[i].Exited?)
  }

  /** Wakeups: a worker sleeps only while no more tasks are queued than workers are on their way
      or notifications are owed. */
  ghost predicate WakeupInv(s: State) {
    SomeAsleep(s.workers) ==> |s.tasks| <= ReadyCount(s.workers) + OwedCount(s.callers)
  }

  /** Nor does a worker sleep past a stop, unless the stopper has yet to notify. */
  ghost predicate AlarmInv(s: State) {
    SomeAsleep(s.workers) && s.stopping ==> exists c :: 0 <= c < |s.callers| && s.callers[c].MustNotifyAll?
  }

  ghost predicate Inv(s: State) {
    OnceInv(s) && TasksInv(s) && StopInv(s) && WakeupInv(s) && AlarmInv(s)
  }

  lemma {:induction false} AllReady(workers: seq<Worker>, t: Task)
    requires forall i :: 0 <= i < |workers| ==> workers[i].Ready?
    ensures RunningCount(workers, t) == 0
  {
    if workers != [] {
      AllReady(workers[1..], t);
    }
  }

  lemma InitInv(s: State)
    requires Init(s)
    ensures Inv(s)
  {
    forall t: Task
      ensures RunningCount(s.workers, t) == 0
    {
      AllReady(s.workers, t);
    }
  }

  lemma StepCounts(s: State, a: Action, t: Task)
    requires Enabled(s, a) && Times(s.started, t) == RunningCount(s.workers, t) + Times(s.finished, t)
    ensures var r := Apply(s, a); Times(r.started, t) == RunningCount(r.workers, t) + Times(r.finished, t)
  {
    hide RunningCount, Times;
    match a {
      case NotifyOne(_, w) => RunningChanges(s.workers, w, Ready, t);
      case NotifyAll(_) => WakingAll(s.workers, t);
      case Look(w) =>
        RunningChanges(s.workers, w, Apply(s, a).workers[w], t);
        if s.tasks != [] {
          TimesAppend(s.started, s.tasks[0], t);
        }
      case SpuriousWakeup(w) => RunningChanges(s.workers, w, Ready, t);
      case Finish(w) =>
        RunningChanges(s.workers, w, Ready, t);
        TimesAppend(s.finished, s.workers[w].task, t);
      case _ =>
    }
  }

  lemma StepOnce(s: State, a: Action)
    requires OnceInv(s) && Enabled(s, a)
    ensures OnceInv(Apply(s, a))
  {
    hide RunningCount, Times, Apply;
    forall t: Task
      ensures var r := Apply(s, a); Times(r.started, t) == RunningCount(r.workers, t) + Times(r.finished, t)
    {
      StepCounts(s, a, t);
    }
  }

  lemma StepTasks(s: State, a: Action)
    requires TasksInv(s) && Enabled(s, a)
    ensures TasksInv(Apply(s, a))
  {
    if a.Look? && s.tasks != [] {
      assert s.tasks == [s.tasks[0]] + s.tasks[1..];
      assert s.started + [s.tasks[0]] + s.tasks[1..] == s.started + s.tasks;
    }
  }

  lemma StepStop(s: State, a: Action)
    requires TasksInv(s) && StopInv(s) && Enabled(s, a)
    ensures StopInv(Apply(s, a))
  {
    hide ReadyCount, OwedCount, WorkersWeight, CallersWeight, RunningCount;
    var t := Apply(s, a);
    if s.stopping {
      var c :| 0 <= c < |s.callers| && IsStopper(s.callers[c]);
      assert IsStopper(t.callers[c]);
    } else if t.stopping {
      assert IsStopper(t.callers[a.caller]);
    }
  }

  lemma StepWakeup(s: State, a: Action)
    requires WakeupInv(s) && Enabled(s, a)
    ensures WakeupInv(Apply(s, a))
  {
    hide ReadyCount, OwedCount, WorkersWeight, CallersWeight;
    var t := Apply(s, a);
    match a {
      case Submit(c, _) => CallerChanges(s.callers, c, MustNotifyOne, 0);
      case NotifyOne(c, w) =>
        CallerChanges(s.callers, c, Idle, 0);
        WorkerChanges(s.workers, w, Ready);
      case Stop(c) => CallerChanges(s.callers, c, MustNotifyAll, 0);
      case Look(w) => WorkerChanges(s.workers, w, t.workers[w]);
      case SpuriousWakeup(w) => WorkerChanges(s.workers, w, Ready);
      case Finish(w) => WorkerChanges(s.workers, w, Ready);
      case Join(c) => CallerChanges(s.callers, c, t.callers[c], 0);
      case _ =>
    }
    if SomeAsleep(t.workers) && !(a.Look? && s.tasks == []) {
      var i :| 0 <= i < |t.workers| && t.workers[i].Asleep?;
      assert s.workers[i].Asleep?;
    }
  }

  lemma StepAlarm(s: State, a: Action)
    requires AlarmInv(s) && Enabled(s, a)
    ensures AlarmInv(Apply(s, a))
  {
    var t := Apply(s, a);
    if SomeAsleep(t.workers) && t.stopping {
      if s.stopping {
        var i :| 0 <= i < |t.workers| && t.workers[i].Asleep?;
        assert s.workers[i].Asleep?;
        var c :| 0 <= c < |s.callers| && s.callers[c].MustNotifyAll?;
        assert t.callers[c].MustNotifyAll?;
      } else {
        assert t.callers[a.caller].MustNotifyAll?;
      }
    }
  }

  lemma StepInv(s: State, a: Action)
    requires Inv(s) && Enabled(s, a)
    ensures Inv(Apply(s, a))
  {
    StepOnce(s, a);
    StepTasks(s, a);
    StepStop(s, a);
    StepWakeup(s, a);
    StepAlarm(s, a);
  }

  lemma {:induction false} RunInv(s: State, actions: seq<Action>, t: State)
    requires Inv(s) && Leads(s, actions, t)
    ensures Inv(t)
    decreases actions
  {
    if actions != [] {
      StepInv(s, actions[0]);
      RunInv(Apply(s, actions[0]), actions[1..], t);
    }
  }

  // ---------------------------------------------------------------------------
  // Results, for every interleaving
  // ---------------------------------------------------------------------------

  ghost predicate NotifyOwed(callers: seq<Caller>) {
    exists c :: 0 <= c < |callers| && (callers[c].MustNotifyOne? || callers[c].MustNotifyAll?)
  }

  ghost predicate SomeoneAwake(workers: seq<Worker>) {
    exists w :: 0 <= w < |workers| && (workers[w].Ready? || workers[w].Running?)
  }

  /** Work waiting to be done or a shutdown to be noticed never meets a pool that is all asleep
      with nobody about to notify it. */
  lemma NoLostWakeup(s: State, actions: seq<Action>, t: State)
    requires Init(s) && Leads(s, actions, t)
    requires t.tasks != [] || (t.stopping && exists w :: 0 <= w < |t.workers| && !t.workers[w].Exited?)
    ensures SomeoneAwake(t.workers) || NotifyOwed(t.callers)
  {
    InitInv(s);
    RunInv(s, actions, t);
    if SomeAsleep(t.workers) {
      if !t.stopping {
        if OwedCount(t.callers) > 0 {
          var c := SomeoneIsOwing(t.callers);
        } else {
          var w := SomeoneIsReady(t.workers);
        }
      }
    } else if t.tasks != [] {
      assert t.workers[0].Ready? || t.workers[0].Running?;
    }
  }

  /** Sharper: while any worker sleeps, every queued task is matched by a worker that is about to
      look or by a notification still owed. */
  lemma SleepersAreNotNeeded(s: State, actions: seq<Action>, t: State)
    requires Init(s) && Leads(s, actions, t) && SomeAsleep(t.workers)
    ensures |t.tasks| <= ReadyCount(t.workers) + OwedCount(t.callers)
  {
    InitInv(s);
    RunInv(s, actions, t);
  }

  /** A submission is refused exactly by a stopping pool and by one that holds as many tasks as its
      bound; a refused one changes nothing, and one that is taken goes to the end of the queue and
      leaves its caller owing a notification. */
  lemma RefusedExactly(s: State, actions: seq<Action>, t: State, c: nat, task: Task)
    requires Init(s) && Leads(s, actions, t) && Enabled(t, Submit(c, task))
    ensures var u := Apply(t, Submit(c, task));
            && (u.accepted == t.accepted <==> t.stopping || |t.tasks| == s.maxQueueSize)
            && (u.accepted == t.accepted ==> u == t)
            && (u.accepted != t.accepted ==>
                  u.accepted == t.accepted + [task] && u.tasks == t.tasks + [task] && u.callers[c].MustNotifyOne?)
  {
    InitInv(s);
    RunInv(s, actions, t);
    BoundIsFixed(s, actions, t);
    assert |t.accepted + [task]| == |t.accepted| + 1;
  }

  lemma {:induction false} BoundIsFixed(s: State, actions: seq<Action>, t: State)
    requires Leads(s, actions, t)
    ensures t.maxQueueSize == s.maxQueueSize && |t.callers| == |s.callers| && |t.workers| == |s.workers|
    decreases actions
  {
    if actions != [] {
      BoundIsFixed(Apply(s, actions[0]), actions[1..], t);
    }
  }

  /** A call to stop raises the flag, and the first one goes on to notify and join. */
  lemma StopTakesEffect(s: State, c: nat)
    requires Enabled(s, Stop(c))
    ensures Apply(s, Stop(c)).stopping && Apply(s, Stop(c)).tasks == s.tasks
    ensures Apply(s, Stop(c)).callers[c].MustNotifyAll? <==> !s.stopping
  {
  }

  /** A worker that looks takes the oldest task if there is one, and else exits or falls asleep. */
  lemma LookTakesTheOldest(s: State, w: nat)
    requires Enabled(s, Look(w))
    ensures var t := Apply(s, Look(w));
            && (s.tasks != [] ==> t.workers[w] == Running(s.tasks[0]) && t.tasks == s.tasks[1..])
            && (s.tasks == [] ==> t.tasks == [] && t.workers[w] == if s.stopping then Exited else Asleep)
  {
  }

  /** Tasks start in the order in which they were accepted, the queue never exceeds its bound, and
      each accepted task is queued, running or finished, exactly once. */
  lemma ExactlyOnce(s: State, actions: seq<Action>, t: State, task: Task)
    requires Init(s) && Leads(s, actions, t)
    ensures t.accepted == t.started + t.tasks && |t.tasks| <= t.maxQueueSize
    ensures Times(t.accepted, task) == Times(t.tasks, task) + RunningCount(t.workers, task) + Times(t.finished, task)
  {
    InitInv(s);
    RunInv(s, actions, t);
    assert Times(t.started, task) == RunningCount(t.workers, task) + Times(t.finished, task);
    assert multiset(t.accepted) == multiset(t.started) + multiset(t.tasks);
  }

  lemma {:induction false} LeadsSplits(s: State, before: seq<Action>, t: State, after: seq<Action>, u: State)
    requires Leads(s, before, t) && Leads(t, after, u)
    ensures Leads(s, before + after, u)
    decreases before
  {
    if before == [] {
      assert before + after == after;
    } else {
      LeadsSplits(Apply(s, before[0]), before[1..], t, after, u);
      assert (before + after)[1..] == before[1..] + after;
    }
  }

  lemma {:induction false} ExitIsFinal(t: State, after: seq<Action>, u: State, w: nat)
    requires Leads(t, after, u) && w < |t.workers| && t.workers[w].Exited?
    ensures w < |u.workers| && u.workers[w].Exited?
    decreases after
  {
    if after != [] {
      ExitIsFinal(Apply(t, after[0]), after[1..], u, w);
    }
  }

  /** Once a worker has exited the pool is stopping and its queue stays empty. */
  lemma ExitedMeansDrained(s: State, before: seq<Action>, t: State, after: seq<Action>, u: State, w: nat)
    requires Init(s) && Leads(s, before, t) && Leads(t, after, u)
    requires w < |t.workers| && t.workers[w].Exited?
    ensures u.stopping && u.tasks == [] && u.accepted == t.accepted
  {
    InitInv(s);
    RunInv(s, before, t);
    RunInv(t, after, u);
    ExitIsFinal(t, after, u, w);
    StoppedAcceptsNothing(t, after, u);
  }

  lemma {:induction false} StoppedAcceptsNothing(t: State, after: seq<Action>, u: State)
    requires t.stopping && Leads(t, after, u)
    ensures u.stopping && u.accepted == t.accepted
    decreases after
  {
    if after != [] {
      StoppedAcceptsNothing(Apply(t, after[0]), after[1..], u);
    }
  }

  /** When the `stop` that set the flag returns, every accepted task has run, once. */
  lemma StopReturnsDrained(s: State, actions: seq<Action>, t: State, c: nat)
    requires Init(s) && Leads(s, actions, t)
    requires c < |t.callers| && t.callers[c].Stopped?
    ensures t.tasks == [] && t.started == t.accepted && multiset(t.finished) == multiset(t.accepted)
  {
    InitInv(s);
    RunInv(s, actions, t);
    assert t.workers[0].Exited?;
    AllExitedMeansFinished(t);
  }

  lemma AllExitedMeansFinished(t: State)
    requires Inv(t) && forall i :: 0 <= i < |t.workers| ==> t.workers[i].Exited?
    ensures t.tasks == [] && t.started == t.accepted && multiset(t.finished) == multiset(t.accepted)
  {
    assert t.workers[0].Exited?;
    assert t.started + [] == t.started;
    FinishedWhenIdle(t);
  }

  /** A second `stop` promises nothing of the kind: it can return while a task is still queued. */
  lemma SecondStopReturnsEarly()
    ensures exists s: State, actions: seq<Action>, t: State, u: State ::
              && Init(s) && Leads(s, actions, t) && Enabled(t, Stop(1)) && Apply(t, Stop(1)) == u
              && u.callers[1].Idle? && u.tasks != []
  {
    var s := State(1, [], false, [Ready], [Idle, Idle, Idle], [], [], []);
    var s1 := Apply(s, Submit(2, 7));
    var t := Apply(s1, Stop(0));
    var rest := [Stop(0)];
    assert [Submit(2, 7), Stop(0)][1..] == rest && rest[1..] == [];
    assert Leads(t, [], t);
    assert Leads(s1, rest, t);
    assert Leads(s, [Submit(2, 7), Stop(0)], t);
    assert Apply(t, Stop(1)) == t && t.tasks == [7];
  }

  /** That is because it changes nothing and waits for nobody. Everything accepted has finished when
      it returns exactly if, when it was called, no task was queued and none was running. */
  lemma LaterStopReturnsDrainedExactly(s: State, actions: seq<Action>, t: State, c: nat)
    requires Init(s) && Leads(s, actions, t) && t.stopping && Enabled(t, Stop(c))
    ensures Apply(t, Stop(c)) == t
    ensures multiset(t.finished) == multiset(t.accepted)
            <==> t.tasks == [] && forall w :: 0 <= w < |t.workers| ==> !t.workers[w].Running?
  {
    InitInv(s);
    RunInv(s, actions, t);
    if t.tasks == [] && forall w :: 0 <= w < |t.workers| ==> !t.workers[w].Running? {
      FinishedWhenIdle(t);
    } else if multiset(t.finished) == multiset(t.accepted) {
      BusyMeansUnfinished(s, actions, t);
    }
  }

  lemma FinishedWhenIdle(t: State)
    requires OnceInv(t) && t.accepted == t.started + t.tasks && t.tasks == []
    requires forall w :: 0 <= w < |t.workers| ==> !t.workers[w].Running?
    ensures multiset(t.finished) == multiset(t.accepted)
  {
    assert t.started + [] == t.started;
    forall task: Task
      ensures multiset(t.finished)[task] == multiset(t.accepted)[task]
    {
      NobodyRuns(t.workers, task);
      assert Times(t.started, task) == RunningCount(t.workers, task) + Times(t.finished, task);
    }
  }

  lemma BusyMeansUnfinished(s: State, actions: seq<Action>, t: State)
    requires Init(s) && Leads(s, actions, t)
    requires t.tasks != [] || exists w :: 0 <= w < |t.workers| && t.workers[w].Running?
    ensures multiset(t.finished) != multiset(t.accepted)
  {
    var task: Task;
    if t.tasks != [] {
      task := t.tasks[0];
      assert task in multiset(t.tasks);
    } else {
      var w :| 0 <= w < |t.workers| && t.workers[w].Running?;
      task := t.workers[w].task;
      SomeoneRuns(t.workers, w);
    }
    ExactlyOnce(s, actions, t, task);
  }

  lemma {:induction false} NobodyRuns(workers: seq<Worker>, task: Task)
    requires forall w :: 0 <= w < |workers| ==> !workers[w].Running?
    ensures RunningCount(workers, task) == 0
  {
    if workers != [] {
      NobodyRuns(workers[1..], task);
    }
  }

  lemma {:induction false} SomeoneRuns(workers: seq<Worker>, w: nat)
    requires w < |workers| && workers[w].Running?
    ensures RunningCount(workers, workers[w].task) > 0
  {
    if w > 0 {
      SomeoneRuns(workers[1..], w - 1);
    }
  }

  // ---------------------------------------------------------------------------
  // The drain terminates
  // ---------------------------------------------------------------------------

  /** What is left to do once the pool is stopping. */
  function DrainMeasure(s: State): nat {
    WorkersWeight(s.workers) + 2 * |s.tasks| + CallersWeight(s.callers, |s.workers|)
  }

  /** A call that finds the pool stopping returns without effect; every other step of a stopping
      pool brings the drain closer to its end. */
  lemma DrainStep(s: State, a: Action)
    requires Inv(s) && s.stopping && Enabled(s, a)
    ensures Apply(s, a).stopping
    ensures if a.Submit? || a.Stop? then Apply(s, a) == s else DrainMeasure(Apply(s, a)) < DrainMeasure(s)
  {
    hide ReadyCount, OwedCount, WorkersWeight, CallersWeight, RunningCount, OnceInv;
    var t := Apply(s, a);
    var n := |s.workers|;
    match a {
      case NotifyOne(c, w) =>
        CallerChanges(s.callers, c, Idle, n);
        WorkerChanges(s.workers, w, Ready);
      case NotifyNobody(c) => CallerChanges(s.callers, c, Idle, n);
      case NotifyAll(c) =>
        CallerChanges(s.callers, c, Joining(0), n);
        WakingAll(s.workers, 0);
      case Join(c) => CallerChanges(s.callers, c, t.callers[c], n);
      case Look(w) => WorkerChanges(s.workers, w, t.workers[w]);
      case SpuriousWakeup(w) => WorkerChanges(s.workers, w, Ready);
      case Finish(w) => WorkerChanges(s.workers, w, Ready);
      case _ =>
    }
  }

  ghost predicate Effective(actions: seq<Action>) {
    forall a <- actions :: !a.Submit? && !a.Stop?
  }

  /** So a stopping pool takes no more steps than its measure says, if tasks return. */
  lemma {:induction false} DrainIsBounded(s: State, actions: seq<Action>, t: State)
    requires Inv(s) && s.stopping && Leads(s, actions, t) && Effective(actions)
    ensures |actions| + DrainMeasure(t) <= DrainMeasure(s)
    decreases actions
  {
    if actions != [] {
      DrainStep(s, actions[0]);
      StepInv(s, actions[0]);
      DrainIsBounded(Apply(s, actions[0]), actions[1..], t);
    }
  }

  /** A step that the threads of the pool and its callers take by themselves. New calls are not relied
      on, and neither are spurious wakeups. */
  predicate Proceeds(a: Action) {
    !a.Submit? && !a.Stop? && !a.SpuriousWakeup?
  }

  /** And it never gets stuck before the workers have exited and the stopper has returned. */
  lemma DrainHasNextStep(s: State) returns (a: Action)
    requires Inv(s) && s.stopping
    requires (exists w :: 0 <= w < |s.workers| && !s.workers[w].Exited?)
             || (exists c :: 0 <= c < |s.callers| && !s.callers[c].Idle? && !s.callers[c].Stopped?)
    ensures Enabled(s, a) && Proceeds(a)
  {
    hide ReadyCount, OwedCount, OnceInv;
    if SomeAsleep(s.workers) {
      var c :| 0 <= c < |s.callers| && s.callers[c].MustNotifyAll?;
      a := NotifyAll(c);
    } else if w :| 0 <= w < |s.workers| && !s.workers[w].Exited? {
      a := if s.workers[w].Ready? then Look(w) else Finish(w);
    } else {
      var c :| 0 <= c < |s.callers| && !s.callers[c].Idle? && !s.callers[c].Stopped?;
      a := if s.callers[c].MustNotifyOne? then NotifyNobody(c)
      else if s.callers[c].MustNotifyAll? then NotifyAll(c)
      else Join(c);
    }
  }

  /** A stopping pool that can no longer proceed has run everything it accepted, and its stop has
      returned: no worker sleeps through the shutdown. */
  lemma DrainEndsComplete(s: State, actions: seq<Action>, t: State)
    requires Init(s) && Leads(s, actions, t) && t.stopping
    requires forall a: Action :: Enabled(t, a) ==> !Proceeds(a)
    ensures t.tasks == [] && multiset(t.finished) == multiset(t.accepted)
    ensures exists c :: 0 <= c < |t.callers| && t.callers[c].Stopped?
  {
    InitInv(s);
    RunInv(s, actions, t);
    if exists w :: 0 <= w < |t.workers| && !t.workers[w].Exited? {
      var a := DrainHasNextStep(t);
      assert false;
    }
    var c :| 0 <= c < |t.callers| && IsStopper(t.callers[c]);
    if !t.callers[c].Stopped? {
      var a := DrainHasNextStep(t);
      assert false;
    }
    AllExitedMeansFinished(t);
  }
  /** The same for a pool in service: when it can no longer proceed it has run everything it accepted,
      so no task is left waiting for a worker that sleeps. */
  lemma QuietPoolHasRunEverything(s: State, actions: seq<Action>, t: State)
    requires Init(s) && Leads(s, actions, t)
    requires forall a: Action :: Enabled(t, a) ==> !Proceeds(a)
    ensures t.tasks == [] && multiset(t.finished) == multiset(t.accepted)
  {
    InitInv(s);
    RunInv(s, actions, t);
    forall w | 0 <= w < |t.workers|
      ensures t.workers[w].Asleep? || t.workers[w].Exited?
    {
      assert !Enabled(t, Look(w)) && !Enabled(t, Finish(w));
    }
    if t.tasks != [] {
      TaskCallsForNotify(t);
    }
    FinishedWhenIdle(t);
  }

  /** Nobody ready and no notification owed leaves no task to a sleeping worker. */
  lemma TaskCallsForNotify(t: State)
    requires Inv(t) && t.tasks != []
    requires forall w :: 0 <= w < |t.workers| ==> t.workers[w].Asleep? || t.workers[w].Exited?
    ensures exists a: Action :: Enabled(t, a) && Proceeds(a)
  {
    assert t.workers[0].Asleep?;
    if ReadyCount(t.workers) > 0 {
      var w := SomeoneIsReady(t.workers);
      assert false;
    }
    var c := SomeoneIsOwing(t.callers);
    assert Enabled(t, NotifyOne(c, 0));
  }
}
