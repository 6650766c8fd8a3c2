/**
 * `TimerQueue` as a transition system: the two indexes, the batch being executed, the deferred
 * cancellations, the timer objects at their addresses and the armed timerfd. Other threads create
 * timers and time passes between any two steps; a user callback is any sequence of steps between
 * two timers of a batch.
 */
module TimerQueueSpec {
  import opened Sequences
  import opened Timers

  datatype Phase =
    | Idle                              // outside handleRead
    | Calling(now: int, ran: nat)       // in the loop over `expired`; callingExpiredTimers_ is set
    | Resetting(now: int)               // in reset()

  datatype State = State(
    clock: int,
    issued: seq<nat>,                   // address of every timer ever created, by sequence number
    heap: map<nat, Timer>,              // live timer objects
    pending: set<nat>,                  // created, not yet added by the loop thread
    timers: seq<Entry>,
    active: set<TimerId>,
    canceling: set<TimerId>,
    phase: Phase,
    batch: seq<Entry>,                  // expired timers the batch still owns
    fd: TimerFd)

  datatype Action =
    | Tick(micros: nat)
    | Create(addr: nat, when: int, interval: real)
    | Add(addr: nat)
    | Cancel(id: TimerId)
    | Expire
    | RunNext
    | BeginReset
    | ResetNext
    | Rearm

  function Init(clock: int): State {
    State(clock, [], map[], {}, [], {}, {}, Idle, [], Disarmed)
  }

  /** Sequence numbers start at 1; a default-constructed id names nothing. */
  predicate Issued(s: State, id: TimerId) {
    id == TimerId(0, 0) ||
    (1 <= id.sequence <= |s.issued| && s.issued[id.sequence - 1] == id.addr)
  }

  predicate Enabled(s: State, a: Action) {
    match a
    case Tick(_) => true
    case Create(addr, _, _) => ValidAddr(addr) && addr !in s.heap
    case Add(addr) => addr in s.pending && addr in s.heap && !s.phase.Resetting?
    case Cancel(id) => Issued(s, id) && !s.phase.Resetting?
    case Expire => s.phase.Idle?
    case RunNext => s.phase.Calling? && s.phase.ran < |s.batch|
    case BeginReset => s.phase.Calling? && s.phase.ran == |s.batch|
    case ResetNext => s.phase.Resetting? && s.batch != []
    case Rearm => s.phase.Resetting? && s.batch == []
  }

  function IdOf(s: State, addr: nat): TimerId
    requires addr in s.heap
  {
    TimerId(addr, s.heap[addr].sequence)
  }

  /** `TimerQueue::insert` of the timer at `addr`. */
  function InsertTimer(s: State, addr: nat): State
    requires addr in s.heap
  {
    s.(timers := Insert(s.timers, Entry(s.heap[addr].expiration, addr)),
       active := s.active + {IdOf(s, addr)})
  }

  /** The flag `insert` returns. */
  predicate EarliestChanges(s: State, when: int) {
    s.timers == [] || when < s.timers[0].when
  }

  function AddInLoop(s: State, addr: nat): State
    requires addr in s.heap
  {
    var when := s.heap[addr].expiration;
    var s1 := InsertTimer(s, addr).(pending := s.pending - {addr});
    if EarliestChanges(s, when) then s1.(fd := ResetTimerFd(when, s.clock)) else s1
  }

  function CancelInLoop(s: State, id: TimerId): State {
    if id in s.active && id.addr in s.heap then
      s.(timers := Erase(s.timers, Entry(s.heap[id.addr].expiration, id.addr)),
         heap := s.heap - {id.addr},
         active := s.active - {id})
    else if s.phase.Calling? then s.(canceling := s.canceling + {id})
    else s
  }

  /** The ids of the given entries, as `getExpired` erases them. */
  function IdsOf(s: State, es: seq<Entry>): set<TimerId> {
    set id | id in s.active && id.addr in s.heap && Entry(s.heap[id.addr].expiration, id.addr) in es
  }

  /** The start of `handleRead`, up to the loop over the expired timers. */
  function StartBatch(s: State): State {
    var n := LowerBound(s.timers, Entry(s.clock, UINTPTR_MAX));
    s.(fd := s.fd.Read(s.clock),
       timers := s.timers[n..],
       active := s.active - IdsOf(s, s.timers[..n]),
       canceling := {},
       phase := Calling(s.clock, 0),
       batch := s.timers[..n])
  }

  /** One iteration of `reset`: the timer is restarted or deleted. */
  function ResetOne(s: State): State
    requires s.phase.Resetting? && s.batch != []
  {
    var addr := s.batch[0].addr;
    var s1 := s.(batch := s.batch[1..]);
    if addr !in s.heap then s1
    else if s.heap[addr].Repeat() && IdOf(s, addr) !in s.canceling then
      InsertTimer(s1.(heap := s.heap[addr := s.heap[addr].Restart(s.phase.now)]), addr)
    else s1.(heap := s.heap - {addr})
  }

  function FinishReset(s: State): State {
    s.(phase := Idle,
       fd := if s.timers != [] && ValidTime(s.timers[0].when)
             then ResetTimerFd(s.timers[0].when, s.clock) else s.fd)
  }

  function Next(s: State, a: Action): State
    requires Enabled(s, a)
  {
    match a
    case Tick(d) => s.(clock := s.clock + d)
    case Create(addr, when, interval) =>
      s.(issued := s.issued + [addr],
         heap := s.heap[addr := Timer(when, interval, |s.issued| + 1)],
         pending := s.pending + {addr})
    case Add(addr) => AddInLoop(s, addr)
    case Cancel(id) => CancelInLoop(s, id)
    case Expire => StartBatch(s)
    case RunNext => s.(phase := Calling(s.phase.now, s.phase.ran + 1))
    case BeginReset => s.(phase := Resetting(s.phase.now))
    case ResetNext => ResetOne(s)
    case Rearm => FinishReset(s)
  }

  // ---------- runs ----------

  ghost predicate ValidRun(s: State, acts: seq<Action>)
    decreases |acts|, 0
  {
    acts == [] ||
    (var n := |acts| - 1;
     ValidRun(s, acts[..n]) && Enabled(After(s, acts[..n]), acts[n]))
  }

  ghost function After(s: State, acts: seq<Action>): State
    requires ValidRun(s, acts)
    decreases |acts|, 1
  {
    if acts == [] then s
    else
      var n := |acts| - 1;
      Next(After(s, acts[..n]), acts[n])
  }

  lemma Extend(s: State, acts: seq<Action>, a: Action)
    requires ValidRun(s, acts) && Enabled(After(s, acts), a)
    ensures ValidRun(s, acts + [a]) && After(s, acts + [a]) == Next(After(s, acts), a)
  {
    assert (acts + [a])[..|acts|] == acts;
  }

  lemma OneStep(s: State, a: Action)
    requires Enabled(s, a)
    ensures ValidRun(s, [a]) && After(s, [a]) == Next(s, a)
  {
    Extend(s, [], a);
    assert [] + [a] == [a];
  }

  lemma TwoSteps(s: State, a: Action, b: Action)
    requires Enabled(s, a) && Enabled(Next(s, a), b)
    ensures ValidRun(s, [a, b]) && After(s, [a, b]) == Next(Next(s, a), b)
  {
    OneStep(s, a);
    Extend(s, [a], b);
    assert [a, b] == [a] + [b];
  }

  lemma {:induction false} Concat(s: State, a: seq<Action>, b: seq<Action>)
    requires ValidRun(s, a) && ValidRun(After(s, a), b)
    ensures ValidRun(s, a + b) && After(s, a + b) == After(After(s, a), b)
  {
    if b == [] {
      assert a + b == a;
    } else {
      var n := |b| - 1;
      Concat(s, a, b[..n]);
      Extend(s, a + b[..n], b[n]);
      SnocConcat(a, b);
    }
  }

  lemma Bracket(s: State, first: Action, acts: seq<Action>, last: Action)
    requires Enabled(s, first) && ValidRun(Next(s, first), acts) && Enabled(After(Next(s, first), acts), last)
    ensures ValidRun(s, [first] + acts + [last])
    ensures After(s, [first] + acts + [last]) == Next(After(Next(s, first), acts), last)
  {
    OneStep(s, first);
    Concat(s, [first], acts);
    Extend(s, [first] + acts, last);
  }
}
