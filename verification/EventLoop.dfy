/** The reactor loop of src/reactor/EventLoop.cpp: functors queued under a mutex by any thread, a
    wakeup counter behind an eventfd, a quit flag, and a loop that waits, dispatches, swaps the
    queue out and runs it.

    Pushing a functor and writing the eventfd are separate steps, and so are raising the quit flag
    and writing the eventfd, because the code does both outside the lock. A functor is a number. */
module EventLoop {

  type Functor = nat

  /** The largest value an eventfd counter takes; a write that would pass it fails with EAGAIN. */
  const MAX_COUNTER := 0xFFFF_FFFF_FFFF_FFFE

  /** Ready channels reported by one `epoll_wait`. */
  datatype Event = Wakeup | Other

  /** Where the loop thread stands. `Waiting` is inside `epoll_wait`. */
  datatype LoopPc =
    | NotStarted
    | AtCheck
    | Waiting
    | Dispatching(events: seq<Event>)
    | Executing(batch: seq<Functor>)
    | Left

  datatype ThreadPc = Free | OwesWakeup

  /** `queued` records every functor ever pushed, in push order, `executed` those that ran, in the
      order they ran. `pushedAfter[k]` is the number of swaps made before push k and `swaps` the
      number of swaps so far, `waits` the number of times `epoll_wait` was entered, and `thrown`
      says that a channel handler has thrown since the last swap. `loopOwes` is the loop thread
      between its own push (or its own quit) and the eventfd write. */
  datatype State = State(
    pending: seq<Functor>,
    counter: nat,
    quit: bool,
    pc: LoopPc,
    loopOwes: bool,
    threads: seq<ThreadPc>,
    queued: seq<Functor>,
    executed: seq<Functor>,
    pushedAfter: seq<nat>,
    swaps: nat,
    waits: nat,
    thrown: bool)

  datatype Action =
    | Push(thread: nat, functor: Functor)
    | RequestQuit(thread: nat)
    | WriteEventFd(thread: nat)
    | LoopPush(functor: Functor)
    | LoopRequestQuit
    | LoopWriteEventFd
    | StartLoop
    | Check
    | WaitReturns(events: seq<Event>)
    | Dispatch
    | SwapPending
    | RunNext
    | EpollFails
    | HandlerThrows

  /** Calls made by a handler or a functor run on the loop thread. */
  predicate InCallback(pc: LoopPc) {
    pc.Dispatching? || pc.Executing?
  }

  ghost predicate Enabled(s: State, a: Action) {
    match a
    case Push(t, _) => t < |s.threads| && s.threads[t].Free?
    case RequestQuit(t) => t < |s.threads| && s.threads[t].Free?
    case WriteEventFd(t) => t < |s.threads| && s.threads[t].OwesWakeup?
    case LoopPush(_) => InCallback(s.pc) && !s.loopOwes
    case LoopRequestQuit => InCallback(s.pc) && !s.loopOwes
    case LoopWriteEventFd => s.loopOwes
    case StartLoop => s.pc.NotStarted? || s.pc.Left?
    case Check => s.pc.AtCheck?
    // Level triggered: the wakeup channel can be reported only while its counter is positive, and
    // need not be when more channels are ready than fit the event array.
    case WaitReturns(events) => s.pc.Waiting? && events != [] && (Wakeup in events ==> s.counter > 0)
    case Dispatch => s.pc.Dispatching? && s.pc.events != [] && !s.loopOwes
    case SwapPending => s.pc.Dispatching? && s.pc.events == [] && !s.loopOwes
    case RunNext => s.pc.Executing? && !s.loopOwes
    case EpollFails => s.pc.Waiting?
    case HandlerThrows => s.pc.Dispatching? && !s.loopOwes
  }

  function Increment(counter: nat): nat {
    if counter < MAX_COUNTER then counter + 1 else counter
  }

  ghost function Apply(s: State, a: Action): State
    requires Enabled(s, a)
  {
    match a
    case Push(t, f) =>
      s.(pending := s.pending + [f], queued := s.queued + [f], pushedAfter := s.pushedAfter + [s.swaps],
         threads := s.threads[t := OwesWakeup])
    case RequestQuit(t) => s.(quit := true, threads := s.threads[t := OwesWakeup])
    case WriteEventFd(t) => s.(counter := Increment(s.counter), threads := s.threads[t := Free])
    case LoopPush(f) =>
      s.(pending := s.pending + [f], queued := s.queued + [f], pushedAfter := s.pushedAfter + [s.swaps],
         loopOwes := true)
    case LoopRequestQuit => s.(quit := true, loopOwes := true)
    case LoopWriteEventFd => s.(counter := Increment(s.counter), loopOwes := false)
    case StartLoop => s.(quit := false, pc := AtCheck)
    case Check => if s.quit then s.(pc := Left) else s.(pc := Waiting, waits := s.waits + 1)
    case WaitReturns(events) => s.(pc := Dispatching(events))
    case Dispatch =>
      s.(counter := if s.pc.events[0].Wakeup? then 0 else s.counter, pc := Dispatching(s.pc.events[1..]))
    case SwapPending => s.(pc := Executing(s.pending), pending := [], swaps := s.swaps + 1, thrown := false)
    case RunNext =>
      if s.pc.batch == [] then s.(pc := AtCheck)
      else s.(executed := s.executed + [s.pc.batch[0]], pc := Executing(s.pc.batch[1..]))
    case EpollFails => s.(pc := Left)
    case HandlerThrows => s.(pc := Left, thrown := true)
  }

  ghost predicate Init(s: State) {
    && s.pending == s.queued == s.executed == [] && s.pushedAfter == [] && s.swaps == s.waits == 0
    && s.counter == 0 && !s.quit && !s.thrown && s.pc.NotStarted? && !s.loopOwes
    && (forall t :: 0 <= t < |s.threads| ==> s.threads[t].Free?)
  }

  ghost predicate Leads(s: State, actions: seq<Action>, t: State)
    decreases actions
  {
    if actions == [] then s == t
    else Enabled(s, actions[0]) && Leads(Apply(s, actions[0]), actions[1..], t)
  }

  /** Left undisturbed, the steps that run a batch do what `DoPendingFunctors` does after its swap. */
  lemma {:induction false} UndisturbedBatch(s: State)
    requires s.pc.Executing? && !s.loopOwes
    ensures Leads(s, seq(|s.pc.batch| + 1, i => RunNext), s.(executed := s.executed + s.pc.batch, pc := AtCheck))
    decreases |s.pc.batch|
  {
    var batch := s.pc.batch;
    var steps, t := seq(|batch| + 1, i => RunNext), s.(executed := s.executed + batch, pc := AtCheck);
    assert Enabled(s, steps[0]);
    var next := Apply(s, steps[0]);
    if batch == [] {
      assert next == t;
    } else {
      UndisturbedBatch(next);
      assert steps[1..] == seq(|next.pc.batch| + 1, i => RunNext);
      assert next.executed + next.pc.batch == s.executed + batch;
    }
  }

  // ---------------------------------------------------------------------------
  // The loop object
  // ---------------------------------------------------------------------------

  /** The loop thread itself, or another thread. */
  datatype Who = LoopThread | Thread(id: nat)

  function PushBy(who: Who, functor: Functor): Action {
    if who.LoopThread? then LoopPush(functor) else Push(who.id, functor)
  }

  function RequestQuitBy(who: Who): Action {
    if who.LoopThread? then LoopRequestQuit else RequestQuit(who.id)
  }

  function WriteBy(who: Who): Action {
    if who.LoopThread? then LoopWriteEventFd else WriteEventFd(who.id)
  }

  function Unstarted(threads: nat): State {
    State([], 0, false, NotStarted, false, seq(threads, i => Free), [], [], [], 0, 0, false)
  }

  /** The steps of one undisturbed iteration in which n functors are pending at the swap. */
  function IterationSteps(events: seq<Event>, n: nat): seq<Action> {
    [WaitReturns(events)] + seq(|events|, i => Dispatch) + BatchSteps(n)
  }

  function BatchSteps(n: nat): seq<Action> {
    [SwapPending] + seq(n + 1, i => RunNext)
  }

  lemma LeadsFirst(s: State, a: Action, rest: seq<Action>, t: State)
    requires Enabled(s, a) && Leads(Apply(s, a), rest, t)
    ensures Leads(s, [a] + rest, t)
  {
    assert ([a] + rest)[1..] == rest;
  }

  lemma {:induction false} LeadsThen(s: State, before: seq<Action>, t: State, after: seq<Action>, u: State)
    requires Leads(s, before, t) && Leads(t, after, u)
    ensures Leads(s, before + after, u)
    decreases before
  {
    if before == [] {
      assert before + after == after;
    } else {
      LeadsThen(Apply(s, before[0]), before[1..], t, after, u);
      assert (before + after)[1..] == before[1..] + after;
    }
  }

  /** The fields of the loop with the code that changes them. Each block that runs without
      interruption is one step of the transition system, and a whole call is the sequence of its
      steps when nothing comes between them; `rest` holds what the code keeps in its program
      counters, and the records. */
  class Reactor {
    var pending: seq<Functor>
    var counter: nat
    var quit: bool
    /** The calls made so far to functors. */
    var executed: seq<Functor>
    ghost var rest: State

    ghost function State(): State
      reads this
    {
      rest.(pending := pending, counter := counter, quit := quit, executed := executed)
    }

    constructor (ghost threads: nat)
      ensures Init(State()) && |State().threads| == threads
    {
      pending, counter, quit, executed := [], 0, false, [];
      rest := Unstarted(threads);
    }

    /** The locked block of `queueInLoop`. */
    method PushPending(ghost who: Who, functor: Functor)
      requires Enabled(State(), PushBy(who, functor))
      modifies this
      ensures State() == Apply(old(State()), PushBy(who, functor))
      ensures pending == old(pending) + [functor] && counter == old(counter) && quit == old(quit)
    {
      pending := pending + [functor];
      rest := rest.(queued := rest.queued + [functor], pushedAfter := rest.pushedAfter + [rest.swaps]);
      Owe(who);
    }

    ghost method Owe(who: Who)
      requires who.Thread? ==> who.id < |rest.threads|
      modifies this`rest
      ensures rest == if who.LoopThread? then old(rest).(loopOwes := true)
                      else old(rest).(threads := old(rest).threads[who.id := OwesWakeup])
    {
      rest := if who.LoopThread? then rest.(loopOwes := true)
      else rest.(threads := rest.threads[who.id := OwesWakeup]);
    }

    /** `wakeup`: EAGAIN, on a saturated counter, is success. */
    method Wake(ghost who: Who)
      requires Enabled(State(), WriteBy(who))
      modifies this
      ensures State() == Apply(old(State()), WriteBy(who)) && counter > 0
      ensures pending == old(pending) && quit == old(quit) && executed == old(executed)
    {
      if counter < MAX_COUNTER {
        counter := counter + 1;
      }
      rest := if who.LoopThread? then rest.(loopOwes := false)
      else rest.(threads := rest.threads[who.id := Free]);
    }

    /** `queueInLoop`. */
    method QueueInLoop(ghost who: Who, functor: Functor)
      requires Enabled(State(), PushBy(who, functor))
      modifies this
      ensures Leads(old(State()), [PushBy(who, functor), WriteBy(who)], State())
      ensures pending == old(pending) + [functor] && counter > 0 && quit == old(quit)
    {
      PushPending(who, functor);
      ghost var pushed := State();
      Wake(who);
      LeadsFirst(pushed, WriteBy(who), [], State());
      LeadsFirst(old(State()), PushBy(who, functor), [WriteBy(who)], State());
    }

    /** `quit`. */
    method Quit(ghost who: Who)
      requires Enabled(State(), RequestQuitBy(who))
      modifies this
      ensures Leads(old(State()), [RequestQuitBy(who), WriteBy(who)], State())
      ensures quit && counter > 0 && pending == old(pending)
    {
      quit := true;
      Owe(who);
      ghost var raised := State();
      assert raised == Apply(old(State()), RequestQuitBy(who));
      Wake(who);
      LeadsFirst(raised, WriteBy(who), [], State());
      LeadsFirst(old(State()), RequestQuitBy(who), [WriteBy(who)], State());
    }

    /** `handleWakeup`: reading an eventfd empties it; EAGAIN, on an empty one, is success. */
    method HandleWakeup()
      requires Enabled(State(), Dispatch) && State().pc.events[0].Wakeup?
      modifies this
      ensures State() == Apply(old(State()), Dispatch)
      ensures counter == 0 && pending == old(pending) && quit == old(quit)
    {
      if counter > 0 {
        counter := 0;
      }
      rest := rest.(pc := Dispatching(rest.pc.events[1..]));
    }

    /** The event at the head of the list, handed to its channel. */
    method HandleEvent(event: Event)
      requires Enabled(State(), Dispatch) && State().pc.events[0] == event
      modifies this
      ensures State() == Apply(old(State()), Dispatch)
      ensures pending == old(pending) && executed == old(executed)
    {
      if event.Wakeup? {
        HandleWakeup();
      } else {
        rest := rest.(pc := Dispatching(rest.pc.events[1..]));
      }
    }

    /** `doPendingFunctors`: swap under the lock, then run what was swapped out. A functor that
        throws is logged and does not stop the batch. */
    method DoPendingFunctors()
      requires Enabled(State(), SwapPending)
      modifies this
      ensures Leads(old(State()), BatchSteps(|old(pending)|), State())
      ensures pending == [] && executed == old(executed) + old(pending) && State().pc.AtCheck?
    {
      var functors := pending;
      pending := [];
      rest := rest.(pc := Executing(functors), swaps := rest.swaps + 1, thrown := false);
      ghost var swapped := State();
      assert swapped == Apply(old(State()), SwapPending);
      UndisturbedBatch(swapped);
      for i := 0 to |functors|
        invariant executed == old(executed) + functors[..i]
        invariant State() == swapped.(executed := executed)
      {
        executed := executed + [functors[i]];
      }
      rest := rest.(pc := AtCheck);
      assert functors[..|functors|] == functors;
      LeadsFirst(old(State()), SwapPending, seq(|functors| + 1, i => RunNext), State());
    }

    /** `loopOnce`, once `epoll_wait` has returned; handlers other than `handleWakeup` do nothing
        here, what they queue being steps of their own. */
    method LoopOnce(events: seq<Event>)
      requires Enabled(State(), WaitReturns(events)) && !State().loopOwes
      modifies this
      ensures Leads(old(State()), IterationSteps(events, |old(pending)|), State())
      ensures pending == [] && executed == old(executed) + old(pending) && State().pc.AtCheck?
    {
      rest := rest.(pc := Dispatching(events));
      ghost var steps := [WaitReturns(events)];
      LeadsFirst(old(State()), WaitReturns(events), [], State());
      for i := 0 to |events|
        invariant Leads(old(State()), steps, State()) && steps == [WaitReturns(events)] + seq(i, k => Dispatch)
        invariant rest.pc == Dispatching(events[i..]) && !rest.loopOwes
        invariant pending == old(pending) && executed == old(executed)
      {
        ghost var before := State();
        HandleEvent(events[i]);
        OneMore(old(State()), steps, before, Dispatch);
        steps := steps + [Dispatch];
      }
      ghost var dispatched := State();
      DoPendingFunctors();
      LeadsThen(old(State()), steps, dispatched, BatchSteps(|old(pending)|), State());
    }

    /** `loop` up to its first check of the flag. */
    method Start()
      requires Enabled(State(), StartLoop)
      modifies this
      ensures State() == Apply(old(State()), StartLoop) && !quit && State().pc.AtCheck?
    {
      quit := false;
      rest := rest.(pc := AtCheck);
    }

    /** The condition of the loop. */
    method CheckQuit() returns (go: bool)
      requires Enabled(State(), Check)
      modifies this`rest
      ensures State() == Apply(old(State()), Check) && go == !quit
      ensures if go then State().pc.Waiting? else State().pc.Left?
    {
      go := !quit;
      rest := if quit then rest.(pc := Left) else rest.(pc := Waiting, waits := rest.waits + 1);
    }
  }

  // ---------------------------------------------------------------------------
  // Invariants
  // ---------------------------------------------------------------------------

  ghost predicate SomeoneOwes(s: State) {
    s.loopOwes || exists t :: 0 <= t < |s.threads| && s.threads[t].OwesWakeup?
  }

  /** The loop has returned from `epoll_wait` and has yet to swap the queue. */
  predicate WillSwap(pc: LoopPc) {
    pc.Dispatching?
  }

  /** A queued functor cannot be forgotten: the eventfd is readable, or someone is about to make it
      so, or the loop will look at the queue before it blocks again. */
  ghost predicate Watched(s: State) {
    s.pending != [] ==> s.counter > 0 || SomeoneOwes(s) || WillSwap(s.pc)
  }

  /** A handler that throws voids this until the next swap. */
  ghost predicate HandOffInv(s: State) {
    !s.thrown ==> Watched(s)
  }

  /** A loop that blocks after quit was requested has a wakeup coming. */
  ghost predicate QuitInv(s: State) {
    s.quit && s.pc.Waiting? ==> s.counter > 0 || SomeoneOwes(s)
  }

  function Unfinished(pc: LoopPc): seq<Functor> {
    if pc.Executing? then pc.batch else []
  }

  /** Functors run once each, in push order. */
  ghost predicate OrderInv(s: State) {
    && s.queued == s.executed + Unfinished(s.pc) + s.pending
    && |s.pushedAfter| == |s.queued|
    && (s.loopOwes ==> InCallback(s.pc))
  }

  /** The functors taken by a swap were pushed before it, those still pending may be later. */
  ghost predicate BatchInv(s: State) {
    && |s.pushedAfter| == |s.queued|
    && (forall k :: 0 <= k < |s.queued| ==> s.pushedAfter[k] <= s.swaps)
    && (s.pc.Executing? ==>
          forall k :: 0 <= k < |s.executed| + |s.pc.batch| && k < |s.queued| ==> s.pushedAfter[k] < s.swaps)
  }

  ghost predicate Inv(s: State) {
    HandOffInv(s) && QuitInv(s) && OrderInv(s) && BatchInv(s)
  }

  lemma InitInv(s: State)
    requires Init(s)
    ensures Inv(s)
  {
  }

  lemma StillOwes(s: State, a: Action)
    requires Enabled(s, a) && SomeoneOwes(s)
    ensures SomeoneOwes(Apply(s, a)) || Apply(s, a).counter > 0
  {
    var r := Apply(s, a);
    if s.loopOwes {
      assert r.loopOwes || a.LoopWriteEventFd?;
    } else {
      var t :| 0 <= t < |s.threads| && s.threads[t].OwesWakeup?;
      if a != WriteEventFd(t) {
        assert r.threads[t].OwesWakeup?;
      }
    }
  }

  lemma NowOwes(s: State, a: Action)
    requires Enabled(s, a) && (a.Push? || a.RequestQuit? || a.LoopPush? || a.LoopRequestQuit?)
    ensures SomeoneOwes(Apply(s, a))
  {
    if a.Push? || a.RequestQuit? {
      assert Apply(s, a).threads[a.thread].OwesWakeup?;
    }
  }

  lemma StepWatched(s: State, a: Action)
    requires Watched(s) && Enabled(s, a) && !a.HandlerThrows?
    ensures Watched(Apply(s, a))
  {
    hide SomeoneOwes;
    if a.Push? || a.RequestQuit? || a.LoopPush? || a.LoopRequestQuit? {
      NowOwes(s, a);
    } else if SomeoneOwes(s) {
      StillOwes(s, a);
    }
  }

  lemma StepHandOff(s: State, a: Action)
    requires HandOffInv(s) && Enabled(s, a)
    ensures HandOffInv(Apply(s, a))
  {
    hide SomeoneOwes;
    if Watched(s) && !a.HandlerThrows? {
      StepWatched(s, a);
    }
  }

  lemma StepQuit(s: State, a: Action)
    requires QuitInv(s) && Enabled(s, a)
    ensures QuitInv(Apply(s, a))
  {
    hide SomeoneOwes;
    if a.Push? || a.RequestQuit? || a.LoopPush? || a.LoopRequestQuit? {
      NowOwes(s, a);
    } else if SomeoneOwes(s) {
      StillOwes(s, a);
    }
  }

  lemma PushedLast(executed: seq<Functor>, batch: seq<Functor>, pending: seq<Functor>, f: Functor)
    ensures executed + batch + (pending + [f]) == executed + batch + pending + [f]
  {
  }

  lemma AllSwapped(executed: seq<Functor>, pending: seq<Functor>)
    ensures executed + [] + pending == executed + pending + []
  {
  }

  lemma FirstRun(executed: seq<Functor>, batch: seq<Functor>, pending: seq<Functor>)
    requires batch != []
    ensures executed + batch + pending == executed + [batch[0]] + batch[1..] + pending
  {
    assert batch == [batch[0]] + batch[1..];
  }

  lemma NoneLeft(executed: seq<Functor>, pending: seq<Functor>)
    ensures executed + [] + pending == executed + pending
  {
  }

  lemma StepOrder(s: State, a: Action)
    requires OrderInv(s) && Enabled(s, a)
    ensures OrderInv(Apply(s, a))
  {
    match a {
      case Push(_, f) => PushedLast(s.executed, Unfinished(s.pc), s.pending, f);
      case LoopPush(f) => PushedLast(s.executed, Unfinished(s.pc), s.pending, f);
      case SwapPending => AllSwapped(s.executed, s.pending);
      case RunNext =>
        if s.pc.batch != [] {
          FirstRun(s.executed, s.pc.batch, s.pending);
        } else {
          NoneLeft(s.executed, s.pending);
        }
      case _ =>
    }
  }

  lemma StepBatch(s: State, a: Action)
    requires OrderInv(s) && BatchInv(s) && Enabled(s, a)
    ensures BatchInv(Apply(s, a))
  {
  }

  lemma StepInv(s: State, a: Action)
    requires Inv(s) && Enabled(s, a)
    ensures Inv(Apply(s, a))
  {
    StepHandOff(s, a);
    StepQuit(s, a);
    StepOrder(s, a);
    StepBatch(s, a);
  }

  lemma {:induction false} RunInv(s: State, actions: seq<Action>, t: State)
    requires Inv(s) && Leads(s, actions, t)
    ensures Inv(t)
    decreases actions
  {
    if actions != [] {
      StepInv(s, actions[0]);
      RunInv(Apply(s, actions[0]), actions[1..], t);
    }
  }

  // ---------------------------------------------------------------------------
  // Results, for every interleaving
  // ---------------------------------------------------------------------------

  /** Hand-off: a loop that blocks with functors queued is about to be woken. */
  lemma NoForgottenFunctor(s: State, actions: seq<Action>, t: State)
    requires Init(s) && Leads(s, actions, t)
    requires t.pending != [] && t.pc.Waiting? && !t.thrown
    ensures t.counter > 0 || SomeoneOwes(t)
  {
    InitInv(s);
    RunInv(s, actions, t);
  }

  /** If no handler ever throws, the flag stays down and the hand-off always holds. */
  lemma {:induction false} NeverThrown(s: State, actions: seq<Action>, t: State)
    requires !s.thrown && Leads(s, actions, t) && HandlerThrows !in actions
    ensures !t.thrown
    decreases actions
  {
    if actions != [] {
      assert actions[0] in actions;
      NeverThrown(Apply(s, actions[0]), actions[1..], t);
    }
  }

  /** A push puts its functor at the end of the queue, a request raises the flag, both leave a wakeup
      owed, and writing it makes the counter positive. */
  lemma CallsTakeEffect(s: State, who: Who, functor: Functor)
    ensures Enabled(s, PushBy(who, functor)) ==>
              var t := Apply(s, PushBy(who, functor));
              t.pending == s.pending + [functor] && t.queued == s.queued + [functor] && SomeoneOwes(t)
    ensures Enabled(s, RequestQuitBy(who)) ==>
              var t := Apply(s, RequestQuitBy(who)); t.quit && t.pending == s.pending && SomeoneOwes(t)
    ensures Enabled(s, WriteBy(who)) ==>
              var t := Apply(s, WriteBy(who)); t.counter > 0 && t.pending == s.pending && t.quit == s.quit
  {
    if who.Thread? && who.id < |s.threads| && s.threads[who.id].Free? {
      NowOwes(s, PushBy(who, functor));
      NowOwes(s, RequestQuitBy(who));
    }
  }

  lemma {:induction false} OneMore(s: State, actions: seq<Action>, t: State, a: Action)
    requires Leads(s, actions, t) && Enabled(t, a)
    ensures Leads(s, actions + [a], Apply(t, a))
    decreases actions
  {
    if actions == [] {
      assert Leads(Apply(t, a), [], Apply(t, a));
      assert ([] + [a])[1..] == [];
    } else {
      OneMore(Apply(s, actions[0]), actions[1..], t, a);
      assert (actions + [a])[1..] == actions[1..] + [a];
    }
  }

  const ONE_CLIENT := State([], 0, false, NotStarted, false, [Free], [], [], [], 0, 0, false)

  /** One client thread queues a functor and wakes the loop, which reads the eventfd. */
  lemma FunctorAwaitsSwap() returns (actions: seq<Action>, t: State)
    ensures Leads(ONE_CLIENT, actions, t)
    ensures t.pending == [7] && t.counter == 0 && t.pc == Dispatching([]) && !SomeoneOwes(t)
  {
    hide Leads;
    actions, t := [], ONE_CLIENT;
    assert Leads(t, [], t) by { NoSteps(t); }
    OneMore(ONE_CLIENT, actions, t, StartLoop);
    actions, t := actions + [StartLoop], Apply(t, StartLoop);
    OneMore(ONE_CLIENT, actions, t, Check);
    actions, t := actions + [Check], Apply(t, Check);
    OneMore(ONE_CLIENT, actions, t, Push(0, 7));
    actions, t := actions + [Push(0, 7)], Apply(t, Push(0, 7));
    OneMore(ONE_CLIENT, actions, t, WriteEventFd(0));
    actions, t := actions + [WriteEventFd(0)], Apply(t, WriteEventFd(0));
    OneMore(ONE_CLIENT, actions, t, WaitReturns([Wakeup]));
    actions, t := actions + [WaitReturns([Wakeup])], Apply(t, WaitReturns([Wakeup]));
    OneMore(ONE_CLIENT, actions, t, Dispatch);
    actions, t := actions + [Dispatch], Apply(t, Dispatch);
  }

  lemma NoSteps(t: State)
    ensures Leads(t, [], t)
  {
  }

  /** A throwing handler does strand functors: the eventfd has been read, the swap is skipped, and
      a loop started again blocks although a functor is queued and nobody will wake it. */
  lemma ThrowingHandlerStrandsFunctors() returns (actions: seq<Action>, t: State)
    ensures Init(ONE_CLIENT) && Leads(ONE_CLIENT, actions, t)
    ensures t.pc.Waiting? && t.pending != [] && t.counter == 0 && !SomeoneOwes(t)
  {
    hide Leads;
    actions, t := FunctorAwaitsSwap();
    OneMore(ONE_CLIENT, actions, t, HandlerThrows);
    actions, t := actions + [HandlerThrows], Apply(t, HandlerThrows);
    OneMore(ONE_CLIENT, actions, t, StartLoop);
    actions, t := actions + [StartLoop], Apply(t, StartLoop);
    OneMore(ONE_CLIENT, actions, t, Check);
    actions, t := actions + [Check], Apply(t, Check);
  }

  /** Exactly when that happens: a handler that throws leaves the queue unwatched once the loop has
      been started again and waits if, at that moment, functors are queued, the counter is zero and
      nobody owes a wakeup. */
  lemma ThrowStrandsExactly(t: State)
    requires Enabled(t, HandlerThrows)
    ensures var again := Apply(Apply(t, HandlerThrows), StartLoop);
            var u := Apply(again, Check);
            && Leads(t, [HandlerThrows, StartLoop, Check], u) && u.pc.Waiting?
            && (u.pending != [] && u.counter == 0 && !SomeoneOwes(u)
                <==> t.pending != [] && t.counter == 0 && !SomeoneOwes(t))
  {
    var thrown := Apply(t, HandlerThrows);
    var again := Apply(thrown, StartLoop);
    LeadsFirst(again, Check, [], Apply(again, Check));
    LeadsFirst(thrown, StartLoop, [Check], Apply(again, Check));
    LeadsFirst(t, HandlerThrows, [StartLoop, Check], Apply(again, Check));
    assert [HandlerThrows] + [StartLoop, Check] == [HandlerThrows, StartLoop, Check];
  }

  lemma {:induction false} RunWatched(s: State, actions: seq<Action>, t: State)
    requires Watched(s) && Leads(s, actions, t) && HandlerThrows !in actions
    ensures Watched(t)
    decreases actions
  {
    hide Watched;
    if actions != [] {
      assert actions[0] in actions;
      StepWatched(s, actions[0]);
      RunWatched(Apply(s, actions[0]), actions[1..], t);
    }
  }

  /** Over everything that can follow a throw, up to the next one: a loop that waits with functors
      queued has a wakeup coming, if at the throw none were queued, the counter was positive or
      somebody owed a wakeup. */
  lemma ThrowKeepsHandOff(t: State, actions: seq<Action>, u: State)
    requires Enabled(t, HandlerThrows) && (t.pending == [] || t.counter > 0 || SomeoneOwes(t))
    requires Leads(Apply(t, HandlerThrows), actions, u) && HandlerThrows !in actions
    ensures u.pc.Waiting? && u.pending != [] ==> u.counter > 0 || SomeoneOwes(u)
  {
    assert Watched(Apply(t, HandlerThrows));
    RunWatched(Apply(t, HandlerThrows), actions, u);
  }

  /** And only if: of all that can follow, nothing forgets a functor exactly then. */
  lemma ThrowIsHarmlessExactly(t: State)
    requires Enabled(t, HandlerThrows)
    ensures t.pending == [] || t.counter > 0 || SomeoneOwes(t)
            <==> forall actions, u | Leads(Apply(t, HandlerThrows), actions, u) && HandlerThrows !in actions ::
                   u.pc.Waiting? && u.pending != [] ==> u.counter > 0 || SomeoneOwes(u)
  {
    var thrown := Apply(t, HandlerThrows);
    if t.pending == [] || t.counter > 0 || SomeoneOwes(t) {
      forall actions, u | Leads(thrown, actions, u) && HandlerThrows !in actions
        ensures u.pc.Waiting? && u.pending != [] ==> u.counter > 0 || SomeoneOwes(u)
      {
        ThrowKeepsHandOff(t, actions, u);
      }
    } else {
      ThrowStrandsExactly(t);
      var u := Apply(Apply(thrown, StartLoop), Check);
      assert [HandlerThrows, StartLoop, Check][1..] == [StartLoop, Check];
      assert Leads(thrown, [StartLoop, Check], u) && HandlerThrows !in [StartLoop, Check];
    }
  }

  /** Functors are executed once each, in the order they were queued by all threads together. */
  lemma ExecutedInQueueOrder(s: State, actions: seq<Action>, t: State)
    requires Init(s) && Leads(s, actions, t)
    ensures t.executed + Unfinished(t.pc) + t.pending == t.queued
    ensures t.executed <= t.queued
  {
    InitInv(s);
    RunInv(s, actions, t);
    assert t.queued == t.executed + (Unfinished(t.pc) + t.pending);
  }

  /** A functor queued while a batch runs is not part of that batch: everything executed or still
      to be executed in the current batch was pushed before the swap that made the batch. */
  lemma QueuedDuringBatchRunsLater(s: State, actions: seq<Action>, t: State, k: nat)
    requires Init(s) && Leads(s, actions, t) && t.pc.Executing?
    requires k < |t.queued| && k < |t.pushedAfter| && t.pushedAfter[k] == t.swaps
    ensures k >= |t.executed| + |t.pc.batch|
  {
    InitInv(s);
    RunInv(s, actions, t);
  }

  // ---------------------------------------------------------------------------
  // Quit
  // ---------------------------------------------------------------------------

  ghost predicate Running(pc: LoopPc) {
    !pc.NotStarted? && !pc.Left?
  }

  /** How far the loop thread is from leaving, given that quit was requested: the phase, then the
      events or functors left in it. */
  function PhaseRank(pc: LoopPc): nat {
    match pc
    case Waiting => 3
    case Dispatching(_) => 2
    case Executing(_) => 1
    case _ => 0
  }

  function LeftInPhase(pc: LoopPc): nat {
    match pc
    case Dispatching(events) => |events|
    case Executing(batch) => |batch|
    case AtCheck => 1
    case _ => 0
  }

  predicate MovesLoop(a: Action) {
    a.Check? || a.WaitReturns? || a.Dispatch? || a.SwapPending? || a.RunNext? || a.EpollFails? || a.HandlerThrows?
  }

  /** A step that the loop takes by itself, `epoll_wait` returning only for a wakeup, or a wakeup
      being written. Failures and other channels are not relied on. */
  predicate Proceeds(a: Action) {
    || a.Check? || (a.WaitReturns? && Wakeup in a.events) || a.Dispatch? || a.SwapPending? || a.RunNext?
    || a.WriteEventFd? || a.LoopWriteEventFd?
  }

  predicate Closer(before: LoopPc, after: LoopPc) {
    || PhaseRank(after) < PhaseRank(before)
    || (PhaseRank(after) == PhaseRank(before) && LeftInPhase(after) < LeftInPhase(before))
  }

  /** After quit is requested the loop never enters `epoll_wait` again, each of its steps brings it
      closer to leaving, and no other thread's step sets it back. */
  lemma QuitStep(s: State, a: Action)
    requires s.quit && Running(s.pc) && Enabled(s, a)
    ensures Apply(s, a).quit && Apply(s, a).waits == s.waits
    ensures if MovesLoop(a) then Closer(s.pc, Apply(s, a).pc) else Apply(s, a).pc == s.pc
  {
  }

  /** And it is not stuck: the loop has a step of its own, or is in an `epoll_wait` that returns for a
      wakeup which is there or about to be written. */
  lemma QuitIsNoticed(s: State, actions: seq<Action>, t: State)
    requires Init(s) && Leads(s, actions, t) && t.quit && Running(t.pc)
    ensures exists a: Action :: Enabled(t, a) && Proceeds(a)
    ensures t.pc.Waiting? && !SomeoneOwes(t) ==> Enabled(t, WaitReturns([Wakeup]))
  {
    InitInv(s);
    RunInv(s, actions, t);
    if t.loopOwes {
      assert Enabled(t, LoopWriteEventFd);
    } else if t.pc.Waiting? {
      if t.counter > 0 {
        assert Enabled(t, WaitReturns([Wakeup]));
      } else {
        var c :| 0 <= c < |t.threads| && t.threads[c].OwesWakeup?;
        assert Enabled(t, WriteEventFd(c));
      }
    } else if t.pc.AtCheck? {
      assert Enabled(t, Check);
    } else if t.pc.Executing? {
      assert Enabled(t, RunNext);
    } else if t.pc.events != [] {
      assert Enabled(t, Dispatch);
    } else {
      assert Enabled(t, SwapPending);
    }
  }

  /** Over any continuation that does not restart the loop, quit stays requested and the loop
      waits no more. */
  lemma {:induction false} QuitIsHonoured(t: State, actions: seq<Action>, u: State)
    requires t.quit && !t.pc.NotStarted? && Leads(t, actions, u) && StartLoop !in actions
    ensures u.quit && u.waits == t.waits
    decreases actions
  {
    if actions != [] {
      assert actions[0] in actions;
      QuitIsHonoured(Apply(t, actions[0]), actions[1..], u);
    }
  }

  /** So at most one more batch is run: none, if the loop was already past its swap. */
  lemma {:induction false} QuitLeavesOneIteration(t: State, actions: seq<Action>, u: State)
    requires t.quit && !t.pc.NotStarted? && Leads(t, actions, u) && StartLoop !in actions
    ensures u.swaps <= t.swaps + if t.pc.Waiting? || t.pc.Dispatching? then 1 else 0
    decreases actions
  {
    if actions != [] {
      assert actions[0] in actions;
      QuitLeavesOneIteration(Apply(t, actions[0]), actions[1..], u);
    }
  }

  /** And a started loop that was asked to quit and can no longer proceed has left: it cannot be
      blocked in `epoll_wait`, even if no other channel ever becomes ready. */
  lemma QuitEndsTheLoop(s: State, actions: seq<Action>, t: State)
    requires Init(s) && Leads(s, actions, t) && t.quit && !t.pc.NotStarted?
    requires forall a: Action :: Enabled(t, a) ==> !Proceeds(a)
    ensures t.pc.Left?
  {
    if Running(t.pc) {
      QuitIsNoticed(s, actions, t);
    }
  }

  /** Likewise for functors: a running loop that can no longer proceed, no handler having thrown since
      the last swap, has run everything ever queued. */
  lemma QuietLoopHasRunEverything(s: State, actions: seq<Action>, t: State)
    requires Init(s) && Leads(s, actions, t) && Running(t.pc) && !t.thrown
    requires forall a: Action :: Enabled(t, a) ==> !Proceeds(a)
    ensures t.pc.Waiting? && !t.quit && t.pending == [] && t.executed == t.queued
  {
    InitInv(s);
    RunInv(s, actions, t);
    if t.quit {
      QuitIsNoticed(s, actions, t);
    }
    assert !Enabled(t, LoopWriteEventFd) && !Enabled(t, Check) && !Enabled(t, RunNext);
    assert !Enabled(t, Dispatch) && !Enabled(t, SwapPending) && !Enabled(t, WaitReturns([Wakeup]));
    if t.pending != [] {
      NoForgottenFunctor(s, actions, t);
      var c :| 0 <= c < |t.threads| && t.threads[c].OwesWakeup?;
      assert Enabled(t, WriteEventFd(c));
    }
  }

  /** A request stays in force exactly as long as the loop is not started, unless it is repeated. */
  lemma {:induction false} QuitHoldsUntilStart(t: State, actions: seq<Action>, u: State)
    requires t.quit && Leads(t, actions, u)
    requires forall a <- actions :: !a.RequestQuit? && !a.LoopRequestQuit?
    ensures u.quit <==> StartLoop !in actions
    decreases actions
  {
    if actions != [] {
      var next := Apply(t, actions[0]);
      assert forall a <- actions[1..] :: a in actions;
      assert StartLoop in actions <==> StartLoop == actions[0] || StartLoop in actions[1..] by {
        assert actions == [actions[0]] + actions[1..];
      }
      if next.quit {
        QuitHoldsUntilStart(next, actions[1..], u);
      } else {
        NoRequestNoQuit(next, actions[1..], u);
      }
    }
  }

  lemma {:induction false} NoRequestNoQuit(t: State, actions: seq<Action>, u: State)
    requires !t.quit && Leads(t, actions, u)
    requires forall a <- actions :: !a.RequestQuit? && !a.LoopRequestQuit?
    ensures !u.quit
    decreases actions
  {
    if actions != [] {
      assert actions[0] in actions;
      assert forall a <- actions[1..] :: a in actions;
      NoRequestNoQuit(Apply(t, actions[0]), actions[1..], u);
    }
  }

  /** A quit requested before `loop` resets the flag is lost: the loop runs on and blocks. */
  lemma EarlyQuitIsLost() returns (actions: seq<Action>, t: State)
    ensures Init(ONE_CLIENT) && Leads(ONE_CLIENT, actions, t) && RequestQuit(0) in actions
    ensures t.pc.Waiting? && !t.quit && t.counter == 0 && !SomeoneOwes(t)
  {
    hide Leads;
    actions, t := [], ONE_CLIENT;
    assert Leads(t, [], t) by { NoSteps(t); }
    OneMore(ONE_CLIENT, actions, t, RequestQuit(0));
    actions, t := actions + [RequestQuit(0)], Apply(t, RequestQuit(0));
    OneMore(ONE_CLIENT, actions, t, WriteEventFd(0));
    actions, t := actions + [WriteEventFd(0)], Apply(t, WriteEventFd(0));
    OneMore(ONE_CLIENT, actions, t, StartLoop);
    actions, t := actions + [StartLoop], Apply(t, StartLoop);
    OneMore(ONE_CLIENT, actions, t, Check);
    actions, t := actions + [Check], Apply(t, Check);
    OneMore(ONE_CLIENT, actions, t, WaitReturns([Wakeup]));
    actions, t := actions + [WaitReturns([Wakeup])], Apply(t, WaitReturns([Wakeup]));
    OneMore(ONE_CLIENT, actions, t, Dispatch);
    actions, t := actions + [Dispatch], Apply(t, Dispatch);
    OneMore(ONE_CLIENT, actions, t, SwapPending);
    actions, t := actions + [SwapPending], Apply(t, SwapPending);
    OneMore(ONE_CLIENT, actions, t, RunNext);
    actions, t := actions + [RunNext], Apply(t, RunNext);
    OneMore(ONE_CLIENT, actions, t, Check);
    actions, t := actions + [Check], Apply(t, Check);
  }
}
