/**
 * `EventLoop` as an object: its queue, its flags and its eventfd. Methods are the member functions;
 * what other threads and user callbacks do between two steps comes in as a list of effects.
 */
module EventLoopImpl {
  import opened EventLoopSpec

  /**
   * What happens while a callback or functor runs: it queues a functor itself, another thread pushes
   * one, or another thread comes to its wakeup.
   */
  datatype Effect = Own(task: Task) | OtherPush(tid: Tid, task: Task) | OtherWake(tid: Tid)

  predicate QueueStep(a: Action) {
    a.ForeignPush? || a.ForeignWake? || a.LoopPush? || a.LoopWake?
  }

  /** What an effect does; a push or wakeup that its thread is not ready for does nothing. */
  function Applied(s: State, effect: Effect): (s': State)
    requires (s.phase.Handling? || s.phase.Draining?) && !s.loopOwes
    ensures s'.phase == s.phase && s'.batch == s.batch && !s'.loopOwes
  {
    match effect
    case Own(task) => if s.phase.Draining? then Next(Next(s, LoopPush(task)), LoopWake) else Next(s, LoopPush(task))
    case OtherPush(tid, task) => if tid in s.owing then s else Next(s, ForeignPush(tid, task))
    case OtherWake(tid) => if tid in s.owing then Next(s, ForeignWake(tid)) else s
  }

  function AppliedAll(s: State, effects: seq<Effect>): (s': State)
    requires (s.phase.Handling? || s.phase.Draining?) && !s.loopOwes
    ensures s'.phase == s.phase && s'.batch == s.batch && !s'.loopOwes
  {
    if effects == [] then s else Applied(AppliedAll(s, effects[..|effects| - 1]), effects[|effects| - 1])
  }

  function ScriptAt(scripts: seq<seq<Effect>>, n: nat): seq<Effect> {
    if n < |scripts| then scripts[n] else []
  }

  /** The functors of a drain run in order, from number `n` on, each with what happens meanwhile. */
  function Drained(s: State, scripts: seq<seq<Effect>>, n: nat): (s': State)
    requires s.phase.Draining? && !s.loopOwes
    ensures s'.phase.Draining? && !s'.loopOwes && s'.batch == []
    decreases |s.batch|
  {
    if s.batch == [] then s else Drained(AppliedAll(Next(s, RunTask), ScriptAt(scripts, n)), scripts, n + 1)
  }

  /** A whole drain. */
  function DrainedAll(s: State, scripts: seq<seq<Effect>>): State
    requires s.phase.Handling? && !s.loopOwes
  {
    Next(Drained(Next(Next(s, EndHandling), Swap), scripts, 0), EndDrain)
  }

  /** A whole pass of the main loop. */
  function Pass(s: State, wakeupActive: bool, handlers: seq<Effect>, scripts: seq<seq<Effect>>): State
    requires s.phase.Polling? && !s.loopOwes
  {
    DrainedAll(AppliedAll(Returned(s, wakeupActive), handlers), scripts)
  }

  function Returned(s: State, wakeupActive: bool): (s': State)
    requires s.phase.Polling?
  {
    var s1 := Next(s, PollReturns);
    if wakeupActive then Next(s1, ReadWakeup) else s1
  }

  /** Queueing appends what it pushes. */
  lemma {:induction false} QueueRun(s: State, acts: seq<Action>)
    requires ValidRun(s, acts) && forall a :: a in acts ==> QueueStep(a)
    ensures After(s, acts).pending == s.pending + Pushes(acts)
  {
    if acts != [] {
      var n := |acts| - 1;
      QueueRun(s, acts[..n]);
      assert acts[n] in acts;
    }
  }

  class EventLoop {
    var phase: Phase
    var pendingFunctors: seq<Task>
    var functors: seq<Task>                // the local vector of doPendingFunctors
    var callingPendingFunctors: bool
    var counter: nat
    var quitFlag: bool
    var owing: set<Tid>                    // other threads between their push and their wakeup
    ghost var executed: seq<Task>
    ghost var pushed: seq<Task>

    ghost function View(): State
      reads this
    {
      State(phase, pendingFunctors, functors, executed, pushed, counter, owing, false, quitFlag)
    }

    ghost predicate Valid()
      reads this
    {
      && InOrder(View())
      && (callingPendingFunctors <==> CallingFunctors(View()))
    }

    constructor ()
      ensures Valid() && View() == INIT
    {
      phase, pendingFunctors, functors, callingPendingFunctors := NotStarted, [], [], false;
      counter, quitFlag := 0, false;
      executed, pushed, owing := [], [], {};
    }

    method Wakeup()
      modifies this`counter
      ensures counter == old(counter) + 1
    {
      counter := counter + 1;
    }

    /** `queueInLoop`; wakes the loop for other threads and for functors of the running batch. */
    method QueueInLoop(task: Task, inLoopThread: bool, ghost tid: Tid) returns (ghost acts: seq<Action>)
      requires Valid() && (!inLoopThread ==> tid !in owing)
      requires inLoopThread ==> phase.NotStarted? || phase.Handling? || phase.Draining?
      modifies this`pendingFunctors, this`counter, this`pushed
      ensures Valid() && pendingFunctors == old(pendingFunctors) + [task]
      ensures ValidRun(old(View()), acts) && View() == After(old(View()), acts)
      ensures acts == if !inLoopThread then [ForeignPush(tid, task), ForeignWake(tid)]
                      else if phase.Draining? then [LoopPush(task), LoopWake] else [LoopPush(task)]
      ensures forall a :: a in acts ==> QueueStep(a)
      ensures !inLoopThread || phase.Draining? ==> counter > 0
    {
      ghost var s := View();
      pendingFunctors := pendingFunctors + [task];
      pushed := pushed + [task];
      if !inLoopThread || callingPendingFunctors {
        Wakeup();
      }
      if !inLoopThread {
        TwoSteps(s, ForeignPush(tid, task), ForeignWake(tid));
        assert s.owing + {tid} - {tid} == s.owing;
        acts := [ForeignPush(tid, task), ForeignWake(tid)];
      } else if phase.Draining? {
        TwoSteps(s, LoopPush(task), LoopWake);
        acts := [LoopPush(task), LoopWake];
      } else {
        OneStep(s, LoopPush(task));
        acts := [LoopPush(task)];
      }
    }

    /** `runInLoop`: on the loop thread the functor runs at once and never enters the queue. */
    method RunInLoop(task: Task, inLoopThread: bool, ghost tid: Tid) returns (ranNow: bool)
      requires Valid() && (!inLoopThread ==> tid !in owing)
      modifies this`pendingFunctors, this`counter, this`pushed
      ensures Valid() && ranNow == inLoopThread
      ensures inLoopThread ==> View() == old(View())
      ensures !inLoopThread ==> View() == Next(Next(old(View()), ForeignPush(tid, task)), ForeignWake(tid))
    {
      ranNow := inLoopThread;
      if !inLoopThread {
        TwoSteps(View(), ForeignPush(tid, task), ForeignWake(tid));
        ghost var _ := QueueInLoop(task, false, tid);
      }
    }

    /** One effect; a push or wakeup that its thread is not ready for does nothing. */
    method Apply(effect: Effect) returns (ghost acts: seq<Action>)
      requires Valid() && (phase.Handling? || phase.Draining?)
      modifies this`pendingFunctors, this`counter, this`pushed, this`owing
      ensures Valid()
      ensures ValidRun(old(View()), acts) && View() == After(old(View()), acts)
      ensures forall a :: a in acts ==> QueueStep(a)
      ensures View() == Applied(old(View()), effect)
    {
      acts := [];
      match effect
      case Own(task) =>
        if phase.Draining? { TwoSteps(View(), LoopPush(task), LoopWake); } else { OneStep(View(), LoopPush(task)); }
        acts := QueueInLoop(task, true, 0);
      case OtherPush(tid, task) =>
        if tid !in owing {
          OneStep(View(), ForeignPush(tid, task));
          OrderStep(View(), ForeignPush(tid, task));
          pendingFunctors := pendingFunctors + [task];
          pushed := pushed + [task];
          owing := owing + {tid};
          acts := [ForeignPush(tid, task)];
        }
      case OtherWake(tid) =>
        if tid in owing {
          OneStep(View(), ForeignWake(tid));
          OrderStep(View(), ForeignWake(tid));
          Wakeup();
          owing := owing - {tid};
          acts := [ForeignWake(tid)];
        }
    }

    /** What happens while callbacks run. */
    method Perform(effects: seq<Effect>) returns (ghost acts: seq<Action>)
      requires Valid() && (phase.Handling? || phase.Draining?)
      modifies this`pendingFunctors, this`counter, this`pushed, this`owing
      ensures Valid() && pendingFunctors == old(pendingFunctors) + Pushes(acts)
      ensures ValidRun(old(View()), acts) && View() == After(old(View()), acts)
      ensures forall a :: a in acts ==> QueueStep(a)
      ensures View() == AppliedAll(old(View()), effects)
    {
      acts := [];
      for n := 0 to |effects|
        invariant Valid() && View() == AppliedAll(old(View()), effects[..n])
        invariant ValidRun(old(View()), acts) && View() == After(old(View()), acts)
        invariant forall a :: a in acts ==> QueueStep(a)
      {
        assert effects[..n + 1][..n] == effects[..n];
        ghost var more := Apply(effects[n]);
        Concat(old(View()), acts, more);
        acts := acts + more;
      }
      QueueRun(old(View()), acts);
      assert effects[..|effects|] == effects;
    }

    /** `handleRead`: resets the eventfd. */
    method HandleRead()
      requires Valid() && phase.Handling?
      modifies this`counter
      ensures Valid() && View() == Next(old(View()), ReadWakeup)
    {
      counter := 0;
    }

    /** Runs one functor, which queues what `effects` says. */
    method RunFunctor(effects: seq<Effect>) returns (ghost acts: seq<Action>)
      requires Valid() && phase.Draining? && functors != []
      modifies this`functors, this`executed, this`pendingFunctors, this`counter, this`pushed, this`owing
      ensures Valid() && functors == old(functors)[1..]
      ensures ValidRun(old(View()), acts) && View() == After(old(View()), acts)
      ensures forall a :: a in acts ==> a.RunTask? || QueueStep(a)
      ensures View() == AppliedAll(Next(old(View()), RunTask), effects)
    {
      OneStep(View(), RunTask);
      OrderStep(View(), RunTask);
      executed := executed + [functors[0]];
      functors := functors[1..];
      ghost var more := Perform(effects);
      Concat(old(View()), [RunTask], more);
      acts := [RunTask] + more;
    }

    /** The loop of `doPendingFunctors` over the swapped-out vector. */
    method RunFunctors(scripts: seq<seq<Effect>>) returns (ghost acts: seq<Action>)
      requires Valid() && phase.Draining?
      modifies this`functors, this`executed, this`pendingFunctors, this`counter, this`pushed, this`owing
      ensures Valid() && functors == []
      ensures ValidRun(old(View()), acts) && View() == After(old(View()), acts)
      ensures forall a :: a in acts ==> a.RunTask? || QueueStep(a)
      ensures View() == Drained(old(View()), scripts, 0)
    {
      acts := [];
      var n := 0;
      while functors != []
        invariant Valid() && phase.Draining? && Drained(View(), scripts, n) == Drained(old(View()), scripts, 0)
        invariant ValidRun(old(View()), acts) && View() == After(old(View()), acts)
        invariant forall a :: a in acts ==> a.RunTask? || QueueStep(a)
        decreases |functors|
      {
        ghost var more := RunFunctor(if n < |scripts| then scripts[n] else []);
        n := n + 1;
        Concat(old(View()), acts, more);
        acts := acts + more;
      }
    }

    /**
     * `doPendingFunctors`: runs exactly the functors queued at the swap, in order, whatever they
     * and other threads queue meanwhile; that stays queued with a wakeup pending.
     */
    method DoPendingFunctors(scripts: seq<seq<Effect>>) returns (ghost acts: seq<Action>)
      requires Valid() && phase.Handling?
      modifies this
      ensures Valid() && phase == if quitFlag then Stopped else Polling
      ensures executed == old(executed) + old(pendingFunctors) && pendingFunctors == Pushes(acts)
      ensures pendingFunctors != [] ==> WakeupDue(View())
      ensures ValidRun(old(View()), Drain(acts)) && View() == After(old(View()), Drain(acts))
      ensures forall a :: a in acts ==> a.RunTask? || QueueStep(a)
      ensures View() == DrainedAll(old(View()), scripts)
    {
      SwapFunctors();
      ghost var d := View();
      acts := RunFunctors(scripts);
      WithinDrain(d, acts);
      DrainKeepsAwake(d, acts);
      DrainIsRun(old(View()), acts);
      EndDraining();
    }

    /** The start of `doPendingFunctors`: the queue becomes the local vector. */
    method SwapFunctors()
      requires Valid() && phase.Handling?
      modifies this`callingPendingFunctors, this`phase, this`functors, this`pendingFunctors
      ensures Valid() && View() == Next(Next(old(View()), EndHandling), Swap)
    {
      callingPendingFunctors := true;
      phase := Calling;
      functors, pendingFunctors := pendingFunctors, [];
      phase := Draining;
    }

    /** The end of `doPendingFunctors` and the test of the main loop. */
    method EndDraining()
      requires Valid() && phase.Draining? && functors == []
      modifies this`callingPendingFunctors, this`phase
      ensures Valid() && View() == Next(old(View()), EndDrain)
    {
      callingPendingFunctors := false;
      phase := if quitFlag then Stopped else Polling;
    }

    /** Poll returns and the eventfd is read if it is among the active channels. */
    method PollReturned(wakeupActive: bool) returns (ghost acts: seq<Action>)
      requires Valid() && phase.Polling?
      modifies this`phase, this`counter
      ensures Valid() && phase.Handling?
      ensures acts == if wakeupActive then [PollReturns, ReadWakeup] else [PollReturns]
      ensures View() == Returned(old(View()), wakeupActive)
      ensures ValidRun(old(View()), acts) && View() == After(old(View()), acts)
    {
      OneStep(View(), PollReturns);
      if wakeupActive { TwoSteps(View(), PollReturns, ReadWakeup); }
      acts := [PollReturns];
      phase := Handling;
      if wakeupActive {
        HandleRead();
        acts := [PollReturns, ReadWakeup];
      }
    }

    /**
     * One pass of the main loop, a run of the specification: poll returns, channels are handled while
     * `acts` is queued, and the queue is drained.
     */
    method LoopOnce(wakeupActive: bool, handlers: seq<Effect>, scripts: seq<seq<Effect>>)
      returns (ghost acts: seq<Action>, ghost run: seq<Action>)
      requires Valid() && phase.Polling?
      modifies this
      ensures Valid() && !AsleepWithWork(View())
      ensures counter == (if wakeupActive then 0 else old(counter)) + Wakes(run)
      ensures executed == old(executed) + old(pendingFunctors) + Pushes(acts)
      ensures |pushed| == |executed| + |pendingFunctors|
      ensures ValidRun(old(View()), run) && View() == After(old(View()), run)
      ensures forall a :: a in acts ==> QueueStep(a)
      ensures View() == Pass(old(View()), wakeupActive, handlers, scripts)
    {
      ghost var s, returned, drained := View(), [], [];
      returned := PollReturned(wakeupActive);
      acts, drained := HandleAndDrain(handlers, scripts);
      run := returned + (acts + Drain(drained));
      PassIsRun(s, returned, acts + Drain(drained));
    }

    /** Channels are handled while `acts` is queued, then the queue is drained while `drained` happens. */
    method HandleAndDrain(handlers: seq<Effect>, scripts: seq<seq<Effect>>)
      returns (ghost acts: seq<Action>, ghost drained: seq<Action>)
      requires Valid() && phase.Handling?
      modifies this
      ensures Valid() && !AsleepWithWork(View())
      ensures executed == old(executed) + old(pendingFunctors) + Pushes(acts)
      ensures ValidRun(old(View()), acts + Drain(drained)) && View() == After(old(View()), acts + Drain(drained))
      ensures forall a :: a in acts ==> QueueStep(a)
      ensures forall a :: a in acts + Drain(drained) ==> !a.ReadWakeup?
      ensures View() == DrainedAll(AppliedAll(old(View()), handlers), scripts)
    {
      acts := Perform(handlers);
      ghost var queued := pendingFunctors;
      assert old(executed) + queued == old(executed) + old(pendingFunctors) + Pushes(acts);
      drained := DoPendingFunctors(scripts);
      Concat(old(View()), acts, Drain(drained));
    }
  }

  /** The wakeups in `acts`. */
  function Wakes(acts: seq<Action>): nat {
    if acts == [] then 0 else Wakes(acts[..|acts| - 1]) + (if IsWake(acts[|acts| - 1]) then 1 else 0)
  }

  /** If the eventfd is read at most once, at the start, it ends up with the wakeups after that. */
  lemma {:induction false} WakesOfPass(returned: seq<Action>, rest: seq<Action>, before: nat)
    requires returned == [PollReturns, ReadWakeup] || returned == [PollReturns]
    requires forall a :: a in rest ==> !a.ReadWakeup?
    ensures WakesSince(returned + rest, before) == (if |returned| == 2 then 0 else before) + Wakes(returned + rest)
  {
    if rest == [] {
      assert returned + rest == returned;
      assert [PollReturns, ReadWakeup][..1] == [PollReturns] && [PollReturns][..0] == [];
    } else {
      var n := |rest| - 1;
      WakesOfPass(returned, rest[..n], before);
      assert (returned + rest)[..|returned| + n] == returned + rest[..n] && rest[n] in rest;
    }
  }

  lemma {:induction false} PassIsRun(s: State, returned: seq<Action>, rest: seq<Action>)
    requires returned == [PollReturns, ReadWakeup] || returned == [PollReturns]
    requires ValidRun(s, returned) && ValidRun(After(s, returned), rest) && forall a :: a in rest ==> !a.ReadWakeup?
    ensures ValidRun(s, returned + rest) && After(s, returned + rest) == After(After(s, returned), rest)
    ensures After(s, returned + rest).counter == (if |returned| == 2 then 0 else s.counter) + Wakes(returned + rest)
  {
    Concat(s, returned, rest);
    CounterIsWakes(s, returned + rest);
    WakesOfPass(returned, rest, s.counter);
  }

  /** A drain during which `acts` happens. */
  function Drain(acts: seq<Action>): seq<Action> {
    [EndHandling, Swap] + acts + [EndDrain]
  }

  lemma {:induction false} DrainIsRun(s: State, acts: seq<Action>)
    requires s.phase.Handling?
    requires var d := Next(Next(s, EndHandling), Swap);
      ValidRun(d, acts) && After(d, acts).phase.Draining? && After(d, acts).batch == [] && !After(d, acts).loopOwes
    ensures ValidRun(s, Drain(acts))
    ensures After(s, Drain(acts)) == Next(After(Next(Next(s, EndHandling), Swap), acts), EndDrain)
  {
    TwoSteps(s, EndHandling, Swap);
    Concat(s, [EndHandling, Swap], acts);
    Extend(s, [EndHandling, Swap] + acts, EndDrain);
  }

  lemma TwoSteps(s: State, a: Action, b: Action)
    requires Enabled(s, a) && Enabled(Next(s, a), b)
    ensures ValidRun(s, [a, b]) && After(s, [a, b]) == Next(Next(s, a), b)
  {
    OneStep(s, a);
    Extend(s, [a], b);
    assert [a, b] == [a] + [b];
  }

  lemma DrainKeepsAwake(s: State, acts: seq<Action>)
    requires s.phase.Draining? && s.pending == [] && ValidRun(s, acts)
    ensures var t := After(s, acts); t.phase.Draining? && t.pending != [] ==> WakeupDue(t)
  {
    AwakeRun(s, acts);
  }
}
