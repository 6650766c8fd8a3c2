/**
 * The task queue of `EventLoop`: any number of producer threads push functors, the loop thread
 * polls, handles events and drains, and an eventfd wakes it. Every step is one critical section or
 * one action of the loop thread; another thread may be preempted between its push or its quit and its wakeup.
 */
module EventLoopSpec {
  import opened Sequences

  type Task = nat
  type Tid = nat

  datatype Phase =
    | NotStarted      // before loop()
    | Polling         // about to block or blocked in poll
    | Handling        // dispatching active channels
    | Calling         // in doPendingFunctors, callingPendingFunctors_ set, before the swap
    | Draining        // running the swapped-out functors
    | Stopped

  datatype State = State(
    phase: Phase,
    pending: seq<Task>,       // pendingFunctors_
    batch: seq<Task>,         // functors swapped out and not yet run
    executed: seq<Task>,      // history of queued functors run
    pushed: seq<Task>,        // history of pushes
    counter: nat,             // value of the eventfd
    owing: set<Tid>,          // other threads between push or quit and wakeup
    loopOwes: bool,           // the loop thread between push and wakeup
    quit: bool)

  const INIT := State(NotStarted, [], [], [], [], 0, {}, false, false)

  datatype Action =
    | ForeignPush(tid: Tid, task: Task)
    | ForeignWake(tid: Tid)
    | LoopPush(task: Task)
    | LoopWake
    | LoopQuit
    | ForeignQuit(tid: Tid)
    | Start
    | PollReturns
    | ReadWakeup
    | EndHandling
    | Swap
    | RunTask
    | EndDrain

  predicate Enabled(s: State, a: Action) {
    match a
    case ForeignPush(t, _) => t !in s.owing
    case ForeignWake(t) => t in s.owing
    case LoopPush(_) => !s.loopOwes && (s.phase.NotStarted? || s.phase.Handling? || s.phase.Draining?)
    case LoopWake => s.loopOwes
    case LoopQuit => !s.loopOwes
    case ForeignQuit(t) => t !in s.owing
    case Start => s.phase.NotStarted?
    case PollReturns => s.phase.Polling?
    case ReadWakeup => s.phase.Handling?
    case EndHandling => s.phase.Handling?
    case Swap => s.phase.Calling?
    case RunTask => s.phase.Draining? && !s.loopOwes && s.batch != []
    case EndDrain => s.phase.Draining? && !s.loopOwes && s.batch == []
  }

  /** `callingPendingFunctors_`. */
  predicate CallingFunctors(s: State) {
    s.phase.Calling? || s.phase.Draining?
  }

  function Push(s: State, task: Task): State {
    s.(pending := s.pending + [task], pushed := s.pushed + [task])
  }

  function Next(s: State, a: Action): State
    requires Enabled(s, a)
  {
    match a
    case ForeignPush(t, task) => Push(s, task).(owing := s.owing + {t})
    case ForeignWake(t) => s.(counter := s.counter + 1, owing := s.owing - {t})
    case LoopPush(task) => Push(s, task).(loopOwes := CallingFunctors(s))
    case LoopWake => s.(counter := s.counter + 1, loopOwes := false)
    case LoopQuit => s.(quit := true)
    case ForeignQuit(t) => s.(quit := true, owing := s.owing + {t})
    case Start => s.(phase := Polling, quit := false)
    case PollReturns => s.(phase := Handling)
    case ReadWakeup => s.(counter := 0)
    case EndHandling => s.(phase := Calling)
    case Swap => s.(phase := Draining, batch := s.pending, pending := [])
    case RunTask => s.(executed := s.executed + [s.batch[0]], batch := s.batch[1..])
    case EndDrain => s.(phase := if s.quit then Stopped else Polling)
  }

  // ---------- runs ----------

  ghost predicate ValidRun(s: State, acts: seq<Action>)
    decreases |acts|, 0
  {
    acts == [] ||
    (var n := |acts| - 1;
     ValidRun(s, acts[..n]) && Enabled(After(s, acts[..n]), acts[n]))
  }

  ghost function After(s: State, acts: seq<Action>): State
    requires ValidRun(s, acts)
    decreases |acts|, 1
  {
    if acts == [] then s
    else
      var n := |acts| - 1;
      Next(After(s, acts[..n]), acts[n])
  }

  lemma Extend(s: State, acts: seq<Action>, a: Action)
    requires ValidRun(s, acts) && Enabled(After(s, acts), a)
    ensures ValidRun(s, acts + [a]) && After(s, acts + [a]) == Next(After(s, acts), a)
  {
    assert (acts + [a])[..|acts|] == acts;
  }

  lemma OneStep(s: State, a: Action)
    requires Enabled(s, a)
    ensures ValidRun(s, [a]) && After(s, [a]) == Next(s, a)
  {
    Extend(s, [], a);
    assert [] + [a] == [a];
  }

  lemma {:induction false} Concat(s: State, a: seq<Action>, b: seq<Action>)
    requires ValidRun(s, a) && ValidRun(After(s, a), b)
    ensures ValidRun(s, a + b) && After(s, a + b) == After(After(s, a), b)
  {
    if b == [] {
      assert a + b == a;
    } else {
      var n := |b| - 1;
      Concat(s, a, b[..n]);
      Extend(s, a + b[..n], b[n]);
      SnocConcat(a, b);
    }
  }

  // ---------- exactly once, in order ----------

  ghost predicate InOrder(s: State) {
    && s.executed + s.batch + s.pending == s.pushed
    && (!s.phase.Draining? ==> s.batch == [] && !s.loopOwes)
  }

  lemma {:induction false} OrderStep(s: State, a: Action)
    requires InOrder(s) && Enabled(s, a)
    ensures InOrder(Next(s, a))
  {
    if a.RunTask? { assert s.batch == [s.batch[0]] + s.batch[1..]; }
  }

  lemma {:induction false} OrderRun(s: State, acts: seq<Action>)
    requires InOrder(s) && ValidRun(s, acts)
    ensures InOrder(After(s, acts))
  {
    if acts != [] {
      var n := |acts| - 1;
      OrderRun(s, acts[..n]);
      OrderStep(After(s, acts[..n]), acts[n]);
    }
  }

  /** At every point of every run the pushes are the functors run, then the current batch, then the queue. */
  lemma TasksRunOnceInOrder(acts: seq<Action>)
    requires ValidRun(INIT, acts)
    ensures var s := After(INIT, acts); s.pushed == s.executed + s.batch + s.pending
  {
    OrderRun(INIT, acts);
  }

  /** What was pushed by `acts`, in order. */
  ghost function Pushes(acts: seq<Action>): seq<Task> {
    if acts == [] then []
    else
      var a := acts[|acts| - 1];
      Pushes(acts[..|acts| - 1]) + (if a.ForeignPush? || a.LoopPush? then [a.task] else [])
  }

  predicate DrainInner(a: Action) {
    !a.Swap? && !a.EndDrain?
  }

  lemma {:induction false} DrainStep(s: State, a: Action)
    requires s.phase.Draining? && Enabled(s, a) && DrainInner(a)
    ensures var t := Next(s, a);
      && t.phase.Draining? && t.executed + t.batch == s.executed + s.batch
      && t.pending == s.pending + (if a.ForeignPush? || a.LoopPush? then [a.task] else [])
  {
    if a.RunTask? { assert s.batch == [s.batch[0]] + s.batch[1..]; }
  }

  lemma {:induction false} WithinDrain(s: State, acts: seq<Action>)
    requires s.phase.Draining? && ValidRun(s, acts) && forall a :: a in acts ==> DrainInner(a)
    ensures var t := After(s, acts);
      t.phase.Draining? && t.executed + t.batch == s.executed + s.batch && t.pending == s.pending + Pushes(acts)
  {
    if acts != [] {
      var n := |acts| - 1;
      WithinDrain(s, acts[..n]);
      assert acts[n] in acts;
      DrainStep(After(s, acts[..n]), acts[n]);
    }
  }

  /**
   * One drain runs exactly the functors queued before its swap, so its length is fixed then; what
   * is pushed meanwhile, even by those functors, stays queued for the next drain.
   */
  lemma {:induction false} DrainRunsTheSwapped(s: State, acts: seq<Action>)
    requires s.phase.Calling? && InOrder(s) && ValidRun(s, [Swap] + (acts + [EndDrain]))
    requires forall a :: a in acts ==> DrainInner(a)
    ensures var t := After(s, [Swap] + (acts + [EndDrain]));
      t.executed == s.executed + s.pending && t.pending == Pushes(acts) && t.batch == []
  {
    Split(s, [Swap], acts + [EndDrain]);
    OneStep(s, Swap);
    Split(Next(s, Swap), acts, [EndDrain]);
    WithinDrain(Next(s, Swap), acts);
    OneStep(After(Next(s, Swap), acts), EndDrain);
  }

  // ---------- never asleep with work ----------

  /** A wakeup is stored in the eventfd or is about to be. */
  predicate WakeupDue(s: State) {
    s.counter > 0 || s.owing != {} || s.loopOwes
  }

  predicate AsleepWithWork(s: State) {
    s.phase.Polling? && s.pending != [] && !WakeupDue(s)
  }

  ghost predicate AwakeInv(s: State) {
    && (s.loopOwes ==> s.phase.Draining?)
    && (s.phase.Polling? || s.phase.Draining? ==> s.pending != [] ==> WakeupDue(s))
  }

  lemma {:induction false} AwakeStep(s: State, a: Action)
    requires AwakeInv(s) && Enabled(s, a)
    requires a.Start? ==> s.pending != [] ==> WakeupDue(s)
    ensures AwakeInv(Next(s, a))
  {
    if a.ForeignPush? || a.ForeignQuit? { assert a.tid in Next(s, a).owing; }
  }

  lemma {:induction false} AwakeRun(s: State, acts: seq<Action>)
    requires AwakeInv(s) && !s.phase.NotStarted? && ValidRun(s, acts)
    ensures AwakeInv(After(s, acts)) && !After(s, acts).phase.NotStarted?
  {
    if acts != [] {
      var n := |acts| - 1;
      AwakeRun(s, acts[..n]);
      AwakeStep(After(s, acts[..n]), acts[n]);
    }
  }

  /** Before loop() runs: what other threads did, and what the loop thread did itself. */
  ghost predicate Before(acts: seq<Action>) {
    forall a :: a in acts ==> a.ForeignPush? || a.ForeignWake? || a.ForeignQuit? || a.LoopPush? || a.LoopQuit?
  }

  ghost predicate ByOthers(acts: seq<Action>) {
    exists a :: a in acts && Foreign(a)
  }

  predicate Foreign(a: Action) {
    a.ForeignPush? || a.ForeignQuit?
  }

  lemma ByOthersLast(acts: seq<Action>)
    requires acts != []
    ensures ByOthers(acts) <==> ByOthers(acts[..|acts| - 1]) || Foreign(acts[|acts| - 1])
  {
    var n := |acts| - 1;
    assert acts == acts[..n] + [acts[n]];
    if ByOthers(acts[..n]) {
      var b :| b in acts[..n] && Foreign(b);
      assert b in acts;
    }
    if ByOthers(acts) && !Foreign(acts[n]) {
      var b :| b in acts && Foreign(b);
      assert b in acts[..n];
    }
  }

  lemma {:induction false} BeforeStart(acts: seq<Action>)
    requires ValidRun(INIT, acts) && Before(acts)
    ensures var s := After(INIT, acts);
      && s.phase.NotStarted? && !s.loopOwes && AwakeInv(s)
      && (WakeupDue(s) <==> ByOthers(acts))
      && (s.pending == [] <==> Pushes(acts) == [])
  {
    if acts != [] {
      var n := |acts| - 1;
      assert forall a :: a in acts[..n] ==> a in acts;
      BeforeStart(acts[..n]);
      assert acts[n] in acts;
      ByOthersLast(acts);
      if Foreign(acts[n]) { assert acts[n].tid in After(INIT, acts).owing; }
    }
  }

  /** The loop starts asleep with work exactly when functors were queued before loop(), all by its own thread. */
  lemma {:induction false} StartsAsleepIff(acts: seq<Action>)
    requires ValidRun(INIT, acts) && Before(acts)
    ensures ValidRun(INIT, acts + [Start])
    ensures AsleepWithWork(After(INIT, acts + [Start])) <==> Pushes(acts) != [] && !ByOthers(acts)
  {
    BeforeStart(acts);
    Extend(INIT, acts, Start);
  }

  /** A functor queued on the loop thread before loop() is not seen by the first poll. */
  lemma QueuedBeforeLoopSleeps()
    ensures ValidRun(INIT, [LoopPush(7), Start]) && AsleepWithWork(After(INIT, [LoopPush(7), Start]))
  {
    OneStep(INIT, LoopPush(7));
    Extend(INIT, [LoopPush(7)], Start);
    assert [LoopPush(7), Start] == [LoopPush(7)] + [Start];
  }

  /**
   * Never asleep with work: unless functors were queued before loop() by its own thread alone, in
   * every interleaving a loop that is about to block or blocked with functors queued has its
   * eventfd readable, or a producer between its push and its wakeup.
   */
  lemma {:induction false} NeverAsleepWithWork(acts: seq<Action>, rest: seq<Action>)
    requires ValidRun(INIT, acts) && Before(acts) && (Pushes(acts) == [] || ByOthers(acts))
    requires ValidRun(INIT, acts + [Start] + rest)
    ensures !AsleepWithWork(After(INIT, acts + [Start] + rest))
  {
    BeforeStart(acts);
    Extend(INIT, acts, Start);
    var s := After(INIT, acts + [Start]);
    AwakeStep(After(INIT, acts), Start);
    Split(INIT, acts + [Start], rest);
    AwakeRun(s, rest);
  }

  lemma {:induction false} Split(s: State, a: seq<Action>, b: seq<Action>)
    requires ValidRun(s, a + b)
    ensures ValidRun(s, a) && ValidRun(After(s, a), b) && After(s, a + b) == After(After(s, a), b)
  {
    if b == [] {
      assert a + b == a;
    } else {
      var n := |b| - 1;
      SnocConcat(a, b);
      assert (a + b)[..|a| + n] == a + b[..n] && (a + b)[|a| + n] == b[n];
      Split(s, a, b[..n]);
    }
  }

  // ---------- what the fields record ----------

  predicate IsWake(a: Action) {
    a.ForeignWake? || a.LoopWake?
  }

  /** The wakeups in `acts` since the last read of the eventfd, which held `before` at the start. */
  function WakesSince(acts: seq<Action>, before: nat): nat {
    if acts == [] then before
    else
      var a, rest := acts[|acts| - 1], acts[..|acts| - 1];
      if a.ReadWakeup? then 0 else WakesSince(rest, before) + (if IsWake(a) then 1 else 0)
  }

  /** Whether quit() was called since the last start of loop(). */
  predicate QuitSince(acts: seq<Action>, before: bool) {
    if acts == [] then before
    else
      var a, rest := acts[|acts| - 1], acts[..|acts| - 1];
      a.LoopQuit? || a.ForeignQuit? || (!a.Start? && QuitSince(rest, before))
  }

  /** Whether the last call of thread `t` in `acts` still owes its wakeup. */
  predicate Owes(acts: seq<Action>, t: Tid, before: bool) {
    if acts == [] then before
    else
      var a, rest := acts[|acts| - 1], acts[..|acts| - 1];
      if (a.ForeignPush? || a.ForeignQuit?) && a.tid == t then true
      else if a.ForeignWake? && a.tid == t then false
      else Owes(rest, t, before)
  }

  function RunsOf(acts: seq<Action>): nat {
    if acts == [] then 0 else RunsOf(acts[..|acts| - 1]) + (if acts[|acts| - 1].RunTask? then 1 else 0)
  }

  /** Over any run the eventfd holds the wakeups since it was last read. */
  lemma {:induction false} CounterIsWakes(s: State, acts: seq<Action>)
    requires ValidRun(s, acts)
    ensures After(s, acts).counter == WakesSince(acts, s.counter)
  {
    if acts != [] { CounterIsWakes(s, acts[..|acts| - 1]); }
  }

  /** The functors pushed are those of the push steps, in order, and one is run per run step. */
  lemma {:induction false} PushedIsPushes(s: State, acts: seq<Action>)
    requires ValidRun(s, acts)
    ensures After(s, acts).pushed == s.pushed + Pushes(acts)
    ensures |After(s, acts).executed| == |s.executed| + RunsOf(acts)
  {
    if acts != [] { PushedIsPushes(s, acts[..|acts| - 1]); }
  }

  /** The threads that owe a wakeup are those between their push or quit and their wakeup. */
  lemma {:induction false} OwingIsOwes(s: State, acts: seq<Action>, t: Tid)
    requires ValidRun(s, acts)
    ensures t in After(s, acts).owing <==> Owes(acts, t, t in s.owing)
  {
    if acts != [] { OwingIsOwes(s, acts[..|acts| - 1], t); }
  }

  lemma {:induction false} QuitIsQuitSince(s: State, acts: seq<Action>)
    requires ValidRun(s, acts)
    ensures After(s, acts).quit == QuitSince(acts, s.quit)
  {
    if acts != [] { QuitIsQuitSince(s, acts[..|acts| - 1]); }
  }

  /** After a drain the loop goes back to poll exactly if nobody called quit() since it started. */
  lemma {:induction false} StopsIffQuit(acts: seq<Action>)
    requires ValidRun(INIT, acts) && Enabled(After(INIT, acts), EndDrain)
    ensures Next(After(INIT, acts), EndDrain).phase == if QuitSince(acts, false) then Stopped else Polling
  {
    QuitIsQuitSince(INIT, acts);
  }

  /** The loop thread owes a wakeup only for a functor it pushed while draining. */
  lemma {:induction false} LoopOwesIff(s: State, a: Action)
    requires Enabled(s, a)
    ensures Next(s, a).loopOwes <==>
      (a.LoopPush? && (s.phase.Calling? || s.phase.Draining?)) || (s.loopOwes && !a.LoopWake? && !a.LoopPush?)
  {
  }
}
