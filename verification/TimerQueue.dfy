/**
 * `TimerQueue` as an object. Each method is one member function of the source and takes the
 * corresponding step of the transition system; `HandleRead` runs a whole batch in which every
 * callback may create, add and cancel timers and take time.
 */
module TimerQueueImpl {
  import opened Timers
  import opened TimerQueueSpec
  import opened TimerQueueSafety

  /** What a user callback does. */
  datatype Op =
    | Schedule(addr: nat, when: int, interval: real)    // addTimer on the loop thread
    | Unschedule(id: TimerId)                           // cancel on the loop thread
    | Spend(micros: nat)

  /** What an operation does; one whose address is taken or whose id was never issued does nothing. */
  function Performed(s: State, op: Op): (s': State)
    requires s.phase.Calling?
    ensures s'.phase == s.phase && s'.batch == s.batch
  {
    match op
    case Schedule(addr, when, interval) =>
      if ValidAddr(addr) && addr !in s.heap then Next(Next(s, Create(addr, when, interval)), Add(addr)) else s
    case Unschedule(id) => if Issued(s, id) then Next(s, Cancel(id)) else s
    case Spend(micros) => Next(s, Tick(micros))
  }

  /** A callback performs its operations one after the other. */
  function PerformedAll(s: State, ops: seq<Op>): (s': State)
    requires s.phase.Calling?
    ensures s'.phase == s.phase && s'.batch == s.batch
  {
    if ops == [] then s else Performed(PerformedAll(s, ops[..|ops| - 1]), ops[|ops| - 1])
  }

  function ScriptOf(s: State, scripts: seq<seq<Op>>): seq<Op>
    requires s.phase.Calling?
  {
    if s.phase.ran < |scripts| then scripts[s.phase.ran] else []
  }

  /** The remaining expired timers run in order, each with the script given for it. */
  function RanAll(s: State, scripts: seq<seq<Op>>): (s': State)
    requires s.phase.Calling? && s.phase.ran <= |s.batch|
    ensures s'.phase == Calling(s.phase.now, |s.batch|) && s'.batch == s.batch
    decreases |s.batch| - s.phase.ran
  {
    if s.phase.ran == |s.batch| then s
    else RanAll(PerformedAll(Next(s, RunNext), ScriptOf(s, scripts)), scripts)
  }

  /** Every timer of the batch is reset. */
  function ResetAll(s: State): (s': State)
    requires s.phase.Resetting?
    ensures s'.phase == s.phase && s'.batch == []
    decreases |s.batch|
  {
    if s.batch == [] then s else ResetAll(Next(s, ResetNext))
  }

  /** A whole `handleRead`: the due timers are taken, all run, each is reset, and the timerfd is armed. */
  function WholeBatch(s: State, scripts: seq<seq<Op>>): State
    requires s.phase.Idle?
  {
    Next(ResetAll(Next(RanAll(Next(s, Expire), scripts), BeginReset)), Rearm)
  }

  class TimerQueue {
    var clock: int
    var issued: seq<nat>
    var heap: map<nat, Timer>
    var pending: set<nat>
    var timers: seq<Entry>
    var active: set<TimerId>
    var canceling: set<TimerId>
    var phase: Phase
    var expired: seq<Entry>
    var fd: TimerFd

    ghost function View(): State
      reads this
    {
      State(clock, issued, heap, pending, timers, active, canceling, phase, expired, fd)
    }

    ghost predicate Valid()
      reads this
    {
      Inv(View())
    }

    constructor (now: int)
      requires now > 0
      ensures Valid() && View() == Init(now)
    {
      clock, issued, heap, pending := now, [], map[], {};
      timers, active, canceling := [], {}, {};
      phase, expired, fd := Idle, [], Disarmed;
    }

    /** The creating half of `addTimer`, on any thread. */
    method NewTimer(addr: nat, when: int, interval: real) returns (id: TimerId)
      requires Valid() && Enabled(View(), Create(addr, when, interval))
      modifies this`issued, this`heap, this`pending
      ensures Valid() && View() == Next(old(View()), Create(addr, when, interval))
      ensures Issued(View(), id) && id == IdOf(View(), addr) && id.sequence == |issued|
      ensures forall a :: a in old(heap) ==> old(heap)[a].sequence < id.sequence
    {
      StepKeepsInv(View(), Create(addr, when, interval));
      issued := issued + [addr];
      heap := heap[addr := Timer(when, interval, |issued|)];
      pending := pending + {addr};
      id := TimerId(addr, |issued|);
    }

    /** `insert`; says whether the earliest expiration changed. */
    method InsertBoth(addr: nat) returns (earliestChanged: bool)
      requires addr in heap
      modifies this`timers, this`active
      ensures View() == InsertTimer(old(View()), addr)
      ensures earliestChanged == EarliestChanges(old(View()), heap[addr].expiration)
    {
      var when := heap[addr].expiration;
      earliestChanged := timers == [] || when < timers[0].when;
      timers := Insert(timers, Entry(when, addr));
      active := active + {TimerId(addr, heap[addr].sequence)};
    }

    method AddTimerInLoop(addr: nat)
      requires Valid() && Enabled(View(), Add(addr))
      modifies this`pending, this`timers, this`active, this`fd
      ensures Valid() && View() == Next(old(View()), Add(addr))
    {
      StepKeepsInv(View(), Add(addr));
      pending := pending - {addr};
      var earliestChanged := InsertBoth(addr);
      if earliestChanged {
        fd := ResetTimerFd(heap[addr].expiration, clock);
      }
    }

    /** `addTimer` called on the loop thread. */
    method AddTimer(addr: nat, when: int, interval: real) returns (id: TimerId)
      requires Valid() && ValidAddr(addr) && addr !in heap && !phase.Resetting?
      modifies this`issued, this`heap, this`pending, this`timers, this`active, this`fd
      ensures Valid() && id.addr == addr && id.sequence == |issued| && id in active
      ensures var acts := [Create(addr, when, interval), Add(addr)];
        ValidRun(old(View()), acts) && View() == After(old(View()), acts)
    {
      id := NewTimer(addr, when, interval);
      AddTimerInLoop(addr);
      TwoSteps(old(View()), Create(addr, when, interval), Add(addr));
    }

    method CancelTimerInLoop(id: TimerId)
      requires Valid() && Enabled(View(), Cancel(id))
      modifies this`timers, this`heap, this`active, this`canceling
      ensures Valid() && View() == Next(old(View()), Cancel(id))
      ensures |timers| == |old(timers)| - (if id in old(active) then 1 else 0)
    {
      StepKeepsInv(View(), Cancel(id));
      if id in active {
        var entry := Entry(heap[id.addr].expiration, id.addr);
        EraseSorted(timers, entry);
        timers := Erase(timers, entry);
        heap := heap - {id.addr};
        active := active - {id};
      } else if phase.Calling? {
        canceling := canceling + {id};
      }
    }

    /** `getExpired`: moves the due timers out of both indexes. */
    method GetExpired()
      requires Points(View(), timers) && ActiveInv(View())
      modifies this`timers, this`active, this`expired
      ensures expired == old(timers)[..LowerBound(old(timers), Entry(clock, UINTPTR_MAX))]
      ensures timers == old(timers)[|expired|..]
      ensures active == old(active) - IdsOf(old(View()), expired)
    {
      var end := LowerBound(timers, Entry(clock, UINTPTR_MAX));
      expired := timers[..end];
      timers := timers[end..];
      for n := 0 to |expired|
        invariant expired == old(timers)[..end] && timers == old(timers)[end..]
        invariant active == old(active) - IdsOf(old(View()), old(timers)[..n])
      {
        OneMoreId(old(View()), n);
        assert old(timers)[n] == expired[n] && expired[n] in old(timers);
        active := active - {TimerId(expired[n].addr, heap[expired[n].addr].sequence)};
      }
    }

    /** `handleRead` up to the first callback. */
    method BeginBatch()
      requires Valid() && phase.Idle?
      modifies this`fd, this`timers, this`active, this`expired, this`canceling, this`phase
      ensures Valid() && View() == Next(old(View()), Expire)
    {
      StepKeepsInv(View(), Expire);
      GetExpired();
      fd := fd.Read(clock);
      canceling := {};
      phase := Calling(clock, 0);
    }

    /** The callback takes time. */
    method Spin(micros: nat)
      requires Valid()
      modifies this`clock
      ensures Valid() && View() == Next(old(View()), Tick(micros))
    {
      StepKeepsInv(View(), Tick(micros));
      clock := clock + micros;
    }

    /** One operation of a user callback; operations whose address is taken are skipped. */
    method Perform(op: Op) returns (ghost acts: seq<Action>)
      requires Valid() && phase.Calling?
      modifies this
      ensures Valid() && phase == old(phase) && expired == old(expired)
      ensures ValidRun(old(View()), acts) && View() == After(old(View()), acts)
      ensures View() == Performed(old(View()), op)
      ensures forall a :: a in acts ==> a.Create? || a.Add? || a.Cancel? || a.Tick?
    {
      acts := [];
      match op
      case Schedule(addr, when, interval) =>
        if ValidAddr(addr) && addr !in heap {
          TwoSteps(View(), Create(addr, when, interval), Add(addr));
          var _ := AddTimer(addr, when, interval);
          acts := [Create(addr, when, interval), Add(addr)];
        }
      case Unschedule(id) =>
        if id == TimerId(0, 0) || (1 <= id.sequence <= |issued| && issued[id.sequence - 1] == id.addr) {
          OneStep(View(), Cancel(id));
          CancelTimerInLoop(id);
          acts := [Cancel(id)];
        }
      case Spend(micros) =>
        OneStep(View(), Tick(micros));
        Spin(micros);
        acts := [Tick(micros)];
    }

    /** `Timer::run` on the next expired timer: the callback performs `ops`. */
    method RunOne(ops: seq<Op>) returns (ghost acts: seq<Action>)
      requires Valid() && phase.Calling? && phase.ran < |expired|
      modifies this
      ensures Valid() && phase == Calling(old(phase).now, old(phase).ran + 1) && expired == old(expired)
      ensures ValidRun(old(View()), acts) && View() == After(old(View()), acts)
      ensures View() == PerformedAll(Next(old(View()), RunNext), ops)
      ensures acts != [] && acts[0] == RunNext
      ensures forall a :: a in acts ==> Inner(a)
    {
      StepKeepsInv(View(), RunNext);
      OneStep(View(), RunNext);
      phase := Calling(phase.now, phase.ran + 1);
      acts := [RunNext];
      for n := 0 to |ops|
        invariant View() == PerformedAll(Next(old(View()), RunNext), ops[..n])
        invariant Valid() && phase == Calling(old(phase).now, old(phase).ran + 1) && expired == old(expired)
        invariant ValidRun(old(View()), acts) && View() == After(old(View()), acts)
        invariant acts != [] && acts[0] == RunNext
        invariant forall a :: a in acts ==> Inner(a)
      {
        assert ops[..n + 1][..n] == ops[..n];
        ghost var more := Perform(ops[n]);
        Concat(old(View()), acts, more);
        acts := acts + more;
      }
      assert ops[..|ops|] == ops;
    }

    /** The loop of `reset`: restarts or deletes every expired timer. */
    method ResetExpired() returns (ghost acts: seq<Action>)
      requires Valid() && phase.Resetting?
      modifies this`expired, this`heap, this`timers, this`active
      ensures Valid() && expired == []
      ensures ValidRun(old(View()), acts) && View() == After(old(View()), acts)
      ensures View() == ResetAll(old(View()))
      ensures forall a :: a in acts ==> a.ResetNext?
    {
      acts := [];
      while expired != []
        invariant Valid()
        invariant ValidRun(old(View()), acts) && View() == After(old(View()), acts)
        invariant phase.Resetting? && ResetAll(View()) == ResetAll(old(View()))
        invariant forall a :: a in acts ==> a.ResetNext?
        decreases |expired|
      {
        Extend(old(View()), acts, ResetNext);
        ResetFirst();
        acts := acts + [ResetNext];
      }
    }

    /** The end of `reset`: arms the timerfd for the earliest timer. */
    method RearmTimer()
      requires Valid() && phase.Resetting? && expired == []
      modifies this`fd, this`phase
      ensures Valid() && View() == Next(old(View()), Rearm)
    {
      StepKeepsInv(View(), Rearm);
      if timers != [] && ValidTime(timers[0].when) {
        fd := ResetTimerFd(timers[0].when, clock);
      }
      phase := Idle;
    }

    method ResetFirst()
      requires Valid() && phase.Resetting? && expired != []
      modifies this`expired, this`heap, this`timers, this`active
      ensures Valid() && View() == Next(old(View()), ResetNext) && |expired| < |old(expired)|
    {
      StepKeepsInv(View(), ResetNext);
      assert expired[0] in expired;
      var addr := expired[0].addr;
      expired := expired[1..];
      if heap[addr].Repeat() && TimerId(addr, heap[addr].sequence) !in canceling {
        heap := heap[addr := heap[addr].Restart(phase.now)];
        var _ := InsertBoth(addr);
      } else {
        heap := heap - {addr};
      }
    }

    /** `handleRead` with one script per expired timer (a missing script does nothing). */
    method HandleRead(scripts: seq<seq<Op>>) returns (ghost acts: seq<Action>)
      requires Valid() && phase.Idle?
      modifies this
      ensures Valid() && phase.Idle?
      ensures var all := [Expire] + acts + [Rearm]; ValidRun(old(View()), all) && View() == After(old(View()), all)
      ensures forall a :: a in acts ==> !a.Expire? && !a.Rearm?
      ensures View() == WholeBatch(old(View()), scripts)
    {
      BeginBatch();
      acts := RunBatch(scripts);
      Bracket(old(View()), Expire, acts, Rearm);
      RearmTimer();
    }

    /** The body of `handleRead`: the callbacks, then the loop of `reset`. */
    method RunBatch(scripts: seq<seq<Op>>) returns (ghost acts: seq<Action>)
      requires Valid() && phase.Calling? && phase.ran == 0
      modifies this
      ensures Valid() && phase.Resetting? && expired == []
      ensures ValidRun(old(View()), acts) && View() == After(old(View()), acts)
      ensures forall a :: a in acts ==> !a.Expire? && !a.Rearm?
      ensures View() == ResetAll(Next(RanAll(old(View()), scripts), BeginReset))
    {
      acts := RunAll(scripts);
      Extend(old(View()), acts, BeginReset);
      StepKeepsInv(View(), BeginReset);
      phase := Resetting(phase.now);
      ghost var resets := ResetExpired();
      Concat(old(View()), acts + [BeginReset], resets);
      acts := acts + [BeginReset] + resets;
    }

    /** The loop of `handleRead` over the expired timers. */
    method RunAll(scripts: seq<seq<Op>>) returns (ghost acts: seq<Action>)
      requires Valid() && phase.Calling? && phase.ran == 0
      modifies this
      ensures Valid() && phase.Calling? && phase.ran == |expired| && expired == old(expired)
      ensures ValidRun(old(View()), acts) && View() == After(old(View()), acts)
      ensures forall a :: a in acts ==> Inner(a)
      ensures View() == RanAll(old(View()), scripts)
    {
      acts := [];
      while phase.ran < |expired|
        invariant Valid() && phase.Calling? && expired == old(expired) && phase.ran <= |expired|
        invariant RanAll(View(), scripts) == RanAll(old(View()), scripts)
        invariant ValidRun(old(View()), acts) && View() == After(old(View()), acts)
        invariant forall a :: a in acts ==> Inner(a)
        decreases |expired| - phase.ran
      {
        var ops := if phase.ran < |scripts| then scripts[phase.ran] else [];
        ghost var more := RunOne(ops);
        Concat(old(View()), acts, more);
        acts := acts + more;
      }
    }
  }

  /** Steps that happen while callbacks run. */
  predicate Inner(a: Action) {
    a.RunNext? || a.Create? || a.Add? || a.Cancel? || a.Tick?
  }

  lemma OneMoreId(s: State, n: nat)
    requires ActiveInv(s) && Points(s, s.timers) && n < |s.timers|
    ensures s.timers[n].addr in s.heap
    ensures IdsOf(s, s.timers[..n + 1]) == IdsOf(s, s.timers[..n]) + {IdOf(s, s.timers[n].addr)}
  {
    var e := s.timers[n];
    assert s.timers[..n + 1] == s.timers[..n] + [e] && e in s.timers;
    assert IdOf(s, e.addr) in s.active;
  }
}
