/**
 * The life of connections between `TcpServer` on its loop and the I/O loops: accept, establish,
 * events, forced closes, removal from the map and destruction. Functors queued on a loop may run
 * in any order, and only while that loop is not dispatching events.
 */
module Teardown {
  import opened TcpConnectionSpec
  import opened TcpEvents
  import opened ConnNames

  type Id = nat
  type LoopId = nat

  const SERVER_LOOP: LoopId := 0

  /** Functors that the protocol queues. */
  datatype Task = EstablishTask | RemoveTask | DestroyTask | ForceCloseTask

  /** A connection with its I/O loop, the functors queued for it and what has happened to it. */
  datatype Entry = Entry(
    conn: Conn,
    loop: LoopId,
    queued: map<Task, nat>,
    dispatch: bool,            // in the active list of its loop and not handled yet
    erased: nat,               // history: removals from the map
    destroyed: nat,            // history: runs of connectDestroyed
    touched: bool,             // history: a read toggle took effect after that
    restarted: bool,           // history: startRead was the last read toggle since the connection is down
    reread: bool)              // history: startRead was called while the connection was not up

  datatype State = State(
    name: string,
    ipPort: string,
    nextConnId: nat,
    connections: map<string, Id>,
    conns: map<Id, Entry>,
    handling: set<LoopId>)     // loops dispatching events

  /** A server listening at `addr`, which was formatted into a buffer of `size` characters. */
  function Init(name: string, addr: SockAddr, size: BufferSize): State {
    State(name, ToIpPort(addr, size), 1, map[], map[], {})
  }

  datatype Step =
    | Accept(loop: LoopId, mark: nat)
    | BeginHandling(loop: LoopId, channels: set<Id>)
    | Handle(id: Id, event: Event)
    | EndHandling(loop: LoopId)
    | User(id: Id, op: Action)
    | Run(id: Id, task: Task)
    | RunSend(id: Id, result: WriteResult)    // a functor queued by send or shutdown on another thread

  // ---------- one connection ----------

  function Count(e: Entry, t: Task): nat {
    if t in e.queued then e.queued[t] else 0
  }

  function Queue(e: Entry, t: Task, n: nat): Entry {
    e.(queued := e.queued[t := Count(e, t) + n])
  }

  function Dequeue(e: Entry, t: Task): Entry
    requires Count(e, t) > 0
  {
    e.(queued := e.queued[t := Count(e, t) - 1])
  }

  function Fresh(loop: LoopId, mark: nat): Entry {
    var e := Entry(New(mark), loop, map[], false, 0, 0, false, false, false);
    if loop == SERVER_LOOP then e.(conn := TcpConnectionSpec.Next(e.conn, Establish)) else Queue(e, EstablishTask, 1)
  }

  /** The connection's part of `removeConnectionInLoop`. */
  function Removed(e: Entry): Entry {
    Queue(e.(erased := e.erased + 1), DestroyTask, 1)
  }

  /** `closeCallback_`: `removeConnection`, which runs at once on the server's own loop. */
  function Closed(e: Entry): Entry {
    if e.loop == SERVER_LOOP then Removed(e) else Queue(e, RemoveTask, 1)
  }

  /** How often the message callback calls forceClose. */
  function ForceCloses(ops: seq<Action>): nat {
    if ops == [] then 0
    else ForceCloses(ops[..|ops| - 1]) + (if ops[|ops| - 1].ForceClose? then 1 else 0)
  }

  ghost function Handled(e: Entry, ev: Event): Entry
    requires ValidRun(e.conn, Steps(ev))
  {
    var up := Live(e.conn) && !ClosesFirst(ev.revents);
    Settled(e, if up then ForceCloses(Calls(ev)) else 0, After(e.conn, Steps(ev)))
    .(restarted := LastToggle(Calls(ev), !Live(e.conn) && e.restarted),
      reread := e.reread || (!up && StartRead in Calls(ev)))
  }

  /** The entry after an event that left the connection as `c` and queued `n` forced closes. */
  function Settled(e: Entry, n: nat, c: Conn): Entry {
    var e1 := Queue(e, ForceCloseTask, n).(conn := c, dispatch := false);
    if Live(e.conn) && c.state.Disconnected? then Closed(e1) else e1
  }

  /** A call of startRead or stopRead changes the channel. */
  predicate Toggles(c: Conn, op: Action) {
    || (op.StartRead? && (!c.reading || !c.interest.read))
    || (op.StopRead? && (c.reading || c.interest.read))
  }

  function Called(e: Entry, op: Action): Entry
    requires TcpConnectionSpec.Enabled(e.conn, op)
  {
    var e1 := e.(conn := TcpConnectionSpec.Next(e.conn, op),
                 touched := e.touched || (e.destroyed > 0 && Toggles(e.conn, op)),
                 restarted := op.StartRead? || (!op.StopRead? && e.restarted),
                 reread := e.reread || (op.StartRead? && !Live(e.conn)));
    if op.ForceClose? && Live(e.conn) then Queue(e1, ForceCloseTask, 1) else e1
  }

  predicate TaskAsserts(e: Entry, t: Task) {
    match t
    case EstablishTask => e.conn.state.Connecting?
    case DestroyTask => e.conn.state.Disconnected? && e.conn.interest.None()
    case _ => true
  }

  function Ran(e: Entry, t: Task): Entry
    requires Count(e, t) > 0 && TaskAsserts(e, t)
  {
    var e1 := Dequeue(e, t);
    match t
    case EstablishTask => e1.(conn := TcpConnectionSpec.Next(e.conn, Establish))
    case ForceCloseTask =>
      if Live(e.conn) then Closed(e1.(conn := TcpConnectionSpec.Next(e.conn, ForceCloseInLoop), restarted := false)) else e1
    case RemoveTask => Removed(e1)
    case DestroyTask => e1.(conn := TcpConnectionSpec.Next(e.conn, Destroy), destroyed := e.destroyed + 1)
  }

  // ---------- the server and its loops ----------

  function NameOf(s: State, id: Id): string {
    Name(s.name, s.ipPort, id)
  }

  predicate InMap(s: State, id: Id) {
    NameOf(s, id) in s.connections && s.connections[NameOf(s, id)] == id
  }

  ghost predicate Enabled(s: State, a: Step) {
    match a
    case Accept(_, _) => s.nextConnId < INT_MAX
    case BeginHandling(loop, channels) =>
      loop !in s.handling &&
      forall id :: id in channels ==> id in s.conns && s.conns[id].loop == loop && !s.conns[id].conn.interest.None()
    case Handle(id, ev) => id in s.conns && s.conns[id].dispatch && WellFormed(ev)
    case EndHandling(loop) => loop in s.handling
    case User(id, op) =>
      id in s.conns && UserOp(op) && PossibleResult(op)
    case Run(id, t) =>
      && id in s.conns && Count(s.conns[id], t) > 0
      && (if t.RemoveTask? then SERVER_LOOP else s.conns[id].loop) !in s.handling
    case RunSend(id, r) =>
      id in s.conns && TcpConnectionSpec.Enabled(s.conns[id].conn, RunPosted(r)) && s.conns[id].loop !in s.handling
  }

  /** A step that takes the connection out of the map, on whatever loop, erases its own entry. */
  predicate EraseHolds(s: State, id: Id, e: Entry)
    requires id in s.conns
  {
    e.erased > s.conns[id].erased ==> InMap(s, id)
  }

  /** The asserts of the source on the way of a step. */
  ghost predicate AssertsHold(s: State, a: Step)
    requires Enabled(s, a)
  {
    match a
    case Handle(id, ev) =>
      && ValidRun(s.conns[id].conn, Steps(ev))
      && EraseHolds(s, id, Handled(s.conns[id], ev))
    case User(id, op) => TcpConnectionSpec.Enabled(s.conns[id].conn, op)
    case Run(id, t) => TaskAsserts(s.conns[id], t) && EraseHolds(s, id, Ran(s.conns[id], t))
    case _ => true
  }

  /** Stores an entry; a connection removed from the map in the same step loses its name. */
  function Put(s: State, id: Id, e: Entry): State
    requires id in s.conns
  {
    s.(conns := s.conns[id := e],
       connections := if e.erased > s.conns[id].erased then s.connections - {NameOf(s, id)} else s.connections)
  }

  function OnAccept(s: State, loop: LoopId, mark: nat): State {
    var id := s.nextConnId;
    s.(nextConnId := id + 1, connections := s.connections[NameOf(s, id) := id], conns := s.conns[id := Fresh(loop, mark)])
  }

  ghost function Next(s: State, a: Step): State
    requires Enabled(s, a) && AssertsHold(s, a)
  {
    match a
    case Accept(loop, mark) => OnAccept(s, loop, mark)
    case BeginHandling(loop, channels) =>
      s.(handling := s.handling + {loop},
         conns := map id | id in s.conns :: if id in channels then s.conns[id].(dispatch := true) else s.conns[id])
    case Handle(id, ev) => Put(s, id, Handled(s.conns[id], ev))
    case EndHandling(loop) =>
      s.(handling := s.handling - {loop},
         conns := map id | id in s.conns :: if s.conns[id].loop == loop then s.conns[id].(dispatch := false) else s.conns[id])
    case User(id, op) => Put(s, id, Called(s.conns[id], op))
    case Run(id, t) => Put(s, id, Ran(s.conns[id], t))
    case RunSend(id, r) => Put(s, id, Called(s.conns[id], RunPosted(r)))
  }

  // ---------- the invariant ----------

  /** Where one connection stands, what is queued for it and what its callbacks saw. */
  predicate Life(e: Entry, inMap: bool) {
    var c, establish, remove, destroy := e.conn, Count(e, EstablishTask), Count(e, RemoveTask), Count(e, DestroyTask);
    && Registered(c)
    && (e.dispatch ==> c.interest.added && (Live(c) || e.reread))
    && (!Live(c) && c.interest.read ==> e.reread)
    && (e.touched ==> e.destroyed == 1)
    && match c.state
       case Connecting =>
         establish == 1 && remove == 0 && destroy == 0 && inMap && e.erased == 0 && e.destroyed == 0
         && e.loop != SERVER_LOOP && c.ups == 0 && c.downs == 0 && !c.interest.write && c.posted == []
       case Disconnected =>
         establish == 0 && c.ups == 1 && c.downs == 1 && !c.interest.write && (c.interest.read <==> e.restarted)
         && ((remove == 1 && destroy == 0 && inMap && e.erased == 0 && e.destroyed == 0 && e.loop != SERVER_LOOP)
             || (remove == 0 && destroy == 1 && !inMap && e.erased == 1 && e.destroyed == 0)
             || (remove == 0 && destroy == 0 && !inMap && e.erased == 1 && e.destroyed == 1
                 && (c.interest.added <==> e.touched)))
       case _ =>
         establish == 0 && remove == 0 && destroy == 0 && inMap && e.erased == 0 && e.destroyed == 0
         && c.ups == 1 && c.downs == 0 && c.interest.added
  }

  predicate Fine(s: State, id: Id)
    requires id in s.conns
  {
    && id < s.nextConnId
    && Life(s.conns[id], InMap(s, id))
    && (s.conns[id].dispatch ==> s.conns[id].loop in s.handling)
  }

  ghost predicate Inv(s: State) {
    && |s.ipPort| <= 51 && s.nextConnId <= INT_MAX
    && (forall id {:trigger Fine(s, id)} :: id in s.conns ==> Fine(s, id))
  }

  // ---------- steps of one connection ----------

  lemma FreshLife(loop: LoopId, mark: nat)
    ensures Life(Fresh(loop, mark), true)
  {
  }

  /** An event closes a connection that is up. */
  lemma {:induction false} ClosedLife(e: Entry, ev: Event, c: Conn, n: nat, reread: bool)
    requires Life(e, true) && Live(e.conn) && Closes(ev) && EventEffect(e.conn, ev, c)
    requires reread == (e.reread || (ClosesFirst(ev.revents) && StartRead in Calls(ev)))
    requires LastToggle(Calls(ev), false) ==> ClosesFirst(ev.revents) && StartRead in Calls(ev)
    ensures var e' := Settled(e, n, c).(restarted := LastToggle(Calls(ev), false), reread := reread);
      Life(e', e'.erased == e.erased) && e.erased <= e'.erased && e'.loop == e.loop && !e'.dispatch
  {
  }

  /** An event that closes nothing. */
  lemma {:induction false} CalmLife(e: Entry, inMap: bool, calls: seq<Action>, c: Conn, n: nat, restarted: bool, reread: bool)
    requires Life(e, inMap) && e.dispatch && Calm(e.conn, calls, c)
    requires e.conn.state.Disconnected? ==> restarted == LastToggle(calls, e.restarted)
    requires (e.reread ==> reread) && (!Live(e.conn) && StartRead in calls ==> reread)
    ensures var e' := Settled(e, n, c).(restarted := restarted, reread := reread);
      Life(e', inMap) && e'.erased == e.erased && e'.loop == e.loop && !e'.dispatch
  {
  }

  lemma {:induction false} ToggleNeedsStart(acts: seq<Action>)
    requires LastToggle(acts, false)
    ensures StartRead in acts
  {
    var n := |acts| - 1;
    if !acts[n].StartRead? {
      ToggleNeedsStart(acts[..n]);
      assert acts == acts[..n] + [acts[n]];
    }
  }

  /** An event on any connection the poller reports. */
  lemma {:induction false} HandledLife(e: Entry, inMap: bool, ev: Event)
    requires Life(e, inMap) && e.dispatch && WellFormed(ev)
    ensures ValidRun(e.conn, Steps(ev)) <==> !TcpEvents.Fails(e.conn, ev)
    ensures !TcpEvents.Fails(e.conn, ev) ==>
      var e' := Handled(e, ev);
      && Life(e', inMap && e'.erased == e.erased) && e.erased <= e'.erased && e'.loop == e.loop && !e'.dispatch
      && (e'.erased > e.erased ==> inMap)
  {
    EventClosesOnceIff(e.conn, ev);
    if !TcpEvents.Fails(e.conn, ev) {
      var up, c := Live(e.conn) && !ClosesFirst(ev.revents), After(e.conn, Steps(ev));
      var n, reread := if up then ForceCloses(Calls(ev)) else 0, e.reread || (!up && StartRead in Calls(ev));
      if Live(e.conn) && Closes(ev) {
        if LastToggle(Calls(ev), false) { ToggleNeedsStart(Calls(ev)); }
        ClosedLife(e, ev, c, n, reread);
      } else {
        CalmLife(e, inMap, Calls(ev), c, n, LastToggle(Calls(ev), !Live(e.conn) && e.restarted), reread);
      }
    }
  }

  lemma {:induction false} CalledLife(e: Entry, inMap: bool, op: Action)
    requires Life(e, inMap) && UserOp(op) && PossibleResult(op)
    ensures TcpConnectionSpec.Enabled(e.conn, op)
    ensures var e' := Called(e, op);
      Life(e', inMap) && e'.erased == e.erased && e'.loop == e.loop && e'.dispatch == e.dispatch
  {
    HarmlessStep(e.conn, op);
    ToggleSnoc([], op, e.conn.interest.read);
    assert [] + [op] == [op];
    DownCall(e.conn, op);
  }

  /** On a connection that is down a call puts the channel on the poller only if it toggles reading. */
  lemma {:induction false} DownCall(c: Conn, op: Action)
    requires UserOp(op) && PossibleResult(op)
    ensures c.state.Disconnected? ==>
      TcpConnectionSpec.Next(c, op).interest.added == (c.interest.added || Toggles(c, op))
  {
  }

  lemma {:induction false} PostedLife(e: Entry, inMap: bool, r: WriteResult)
    requires Life(e, inMap) && TcpConnectionSpec.Enabled(e.conn, RunPosted(r))
    ensures var e' := Called(e, RunPosted(r));
      Life(e', inMap) && e'.erased == e.erased && e'.loop == e.loop && e'.dispatch == e.dispatch
  {
    PostedStep(e.conn, r);
  }

  lemma {:induction false} RanLife(e: Entry, inMap: bool, t: Task)
    requires Life(e, inMap) && (e.dispatch ==> t.RemoveTask?) && Count(e, t) > 0
    ensures TaskAsserts(e, t) <==> !(t.DestroyTask? && e.restarted)
    ensures TaskAsserts(e, t) ==>
      var e' := Ran(e, t);
      && (e'.erased > e.erased ==> inMap)
      && Life(e', inMap && e'.erased == e.erased) && e.erased <= e'.erased && e'.loop == e.loop && e'.dispatch == e.dispatch
  {
  }

  // ---------- steps of the system ----------

  lemma PutSparesOthers(s: State, id: Id, e: Entry, other: Id)
    requires Inv(s) && id in s.conns && other in s.conns && other != id
    ensures Fine(Put(s, id, e), other)
  {
    assert Fine(s, id) && Fine(s, other);
    NamesDiffer(s.name, s.ipPort, id, other);
  }

  lemma {:induction false} PutKeepsInv(s: State, id: Id, e: Entry)
    requires Inv(s) && id in s.conns && e.erased >= s.conns[id].erased
    requires Life(e, InMap(s, id) && e.erased == s.conns[id].erased)
    requires e.dispatch ==> e.loop in s.handling
    ensures Inv(Put(s, id, e))
  {
    var s' := Put(s, id, e);
    assert Fine(s, id);
    assert Fine(s', id);
    forall other | other in s'.conns ensures Fine(s', other) {
      if other != id { PutSparesOthers(s, id, e, other); }
    }
  }

  lemma {:induction false} AcceptKeepsInv(s: State, loop: LoopId, mark: nat)
    requires Inv(s) && s.nextConnId < INT_MAX
    ensures Inv(OnAccept(s, loop, mark))
  {
    var s', new_ := OnAccept(s, loop, mark), s.nextConnId;
    FreshLife(loop, mark);
    forall id | id in s'.conns ensures Fine(s', id) {
      if id != new_ {
        assert Fine(s, id);
        NamesDiffer(s.name, s.ipPort, id, new_);
      }
    }
  }

  lemma {:induction false} PhaseKeepsInv(s: State, a: Step)
    requires Inv(s) && Enabled(s, a) && (a.BeginHandling? || a.EndHandling?)
    ensures Inv(Next(s, a))
  {
    var s' := Next(s, a);
    forall id | id in s'.conns ensures Fine(s', id) {
      assert Fine(s, id);
    }
  }

  /**
   * The steps on which an assert of the source fails: an event that closes twice, or closes a
   * connection that is not up, and the destruction of a connection whose last read toggle since it
   * is down was startRead.
   */
  predicate Fails(s: State, a: Step)
    requires (a.Handle? || a.Run?) ==> a.id in s.conns
  {
    || (a.Handle? && TcpEvents.Fails(s.conns[a.id].conn, a.event))
    || (a.Run? && a.task.DestroyTask? && s.conns[a.id].restarted)
  }

  /** The asserts hold on every step but those, and a step that passes them keeps the invariant. */
  lemma {:induction false} StepKeepsInv(s: State, a: Step)
    requires Inv(s) && Enabled(s, a)
    ensures AssertsHold(s, a) <==> !Fails(s, a)
    ensures !Fails(s, a) ==> Inv(Next(s, a))
  {
    match a
    case Accept(loop, mark) => AcceptKeepsInv(s, loop, mark);
    case Handle(id, ev) =>
      assert Fine(s, id);
      HandledLife(s.conns[id], InMap(s, id), ev);
      if !Fails(s, a) { PutKeepsInv(s, id, Handled(s.conns[id], ev)); }
    case User(id, op) =>
      assert Fine(s, id);
      CalledLife(s.conns[id], InMap(s, id), op);
      PutKeepsInv(s, id, Called(s.conns[id], op));
    case Run(id, t) =>
      assert Fine(s, id);
      RanLife(s.conns[id], InMap(s, id), t);
      if !Fails(s, a) { PutKeepsInv(s, id, Ran(s.conns[id], t)); }
    case RunSend(id, r) =>
      assert Fine(s, id);
      PostedLife(s.conns[id], InMap(s, id), r);
      PutKeepsInv(s, id, Called(s.conns[id], RunPosted(r)));
    case BeginHandling(_, _) => PhaseKeepsInv(s, a);
    case EndHandling(_) => PhaseKeepsInv(s, a);
  }

  // ---------- theorems over runs ----------

  ghost predicate ValidSteps(s: State, steps: seq<Step>)
    decreases |steps|, 0
  {
    steps == [] ||
    (var n := |steps| - 1;
     ValidSteps(s, steps[..n]) && Enabled(AfterSteps(s, steps[..n]), steps[n])
     && AssertsHold(AfterSteps(s, steps[..n]), steps[n]))
  }

  ghost function AfterSteps(s: State, steps: seq<Step>): State
    requires ValidSteps(s, steps)
    decreases |steps|, 1
  {
    if steps == [] then s
    else
      var n := |steps| - 1;
      Next(AfterSteps(s, steps[..n]), steps[n])
  }

  lemma {:induction false} RunKeepsInv(s: State, steps: seq<Step>)
    requires Inv(s) && ValidSteps(s, steps)
    ensures Inv(AfterSteps(s, steps))
  {
    if steps != [] {
      var n := |steps| - 1;
      RunKeepsInv(s, steps[..n]);
      StepKeepsInv(AfterSteps(s, steps[..n]), steps[n]);
    }
  }

  lemma {:induction false} InitInv(name: string, addr: SockAddr, size: BufferSize)
    ensures Inv(Init(name, addr, size))
  {
    AddressLength(addr, size);
  }

  /** The step takes a connection out of the map: the queued removal, or closing it on the server's own loop. */
  ghost predicate Erases(s: State, a: Step)
    requires Enabled(s, a) && AssertsHold(s, a) && (a.Handle? || a.Run?)
  {
    || (a.Run? && a.task.RemoveTask?)
    || (s.conns[a.id].loop == SERVER_LOOP && Live(s.conns[a.id].conn) && !Live(Next(s, a).conns[a.id].conn))
  }

  /** How many entries a step takes out of the map. */
  function Erasures(s: State, s': State, id: Id): int
    requires id in s.conns && id in s'.conns
  {
    s'.conns[id].erased - s.conns[id].erased
  }

  /**
   * In any interleaving of the loops, with any calls of user code, an assert fails exactly on the
   * steps named by `Fails`; for a connection on which startRead was never called while it was not up
   * that leaves an event that closes twice. Events reach connections that are up, or where such a
   * startRead was; every map erase, on the server's loop inside an event or forced close or as a
   * functor, removes exactly the connection's own entry; and `connectDestroyed` finds a disconnected
   * connection, outside event dispatch, without interest unless startRead was the last read toggle.
   */
  lemma {:induction false} AssertsHoldIff(name: string, addr: SockAddr, size: BufferSize, steps: seq<Step>, a: Step)
    requires ValidSteps(Init(name, addr, size), steps)
    requires Enabled(AfterSteps(Init(name, addr, size), steps), a)
    ensures var s := AfterSteps(Init(name, addr, size), steps);
      && (AssertsHold(s, a) <==> !Fails(s, a))
      && (a.Handle? ==> var e := s.conns[a.id]; (Live(e.conn) || e.reread) && e.loop in s.handling)
      && (a.Run? && a.task.DestroyTask? ==>
            var e := s.conns[a.id];
            e.conn.state.Disconnected? && !e.dispatch && e.loop !in s.handling && (e.conn.interest.None() <==> !e.restarted))
      && ((a.Handle? || a.Run?) && !s.conns[a.id].reread ==> (Fails(s, a) <==> a.Handle? && ClosesTwice(a.event)))
      && ((a.Handle? || a.Run?) && !Fails(s, a) ==>
            var k := Erasures(s, Next(s, a), a.id);
            && (k == 0 || (k == 1 && InMap(s, a.id) && !InMap(Next(s, a), a.id)))
            && (k == 1 <==> Erases(s, a)) && |Next(s, a).connections| == |s.connections| - k)
  {
    InitInv(name, addr, size);
    RunKeepsInv(Init(name, addr, size), steps);
    var s := AfterSteps(Init(name, addr, size), steps);
    StepKeepsInv(s, a);
    if a.Handle? || a.Run? {
      assert Fine(s, a.id);
      if !Fails(s, a) { EraseCounts(s, a); }
    }
  }

  /** Storing an entry takes its name out of the map exactly if the entry counts one more removal. */
  lemma {:induction false} PutErases(s: State, id: Id, e: Entry)
    requires id in s.conns && s.conns[id].erased <= e.erased <= s.conns[id].erased + 1 && EraseHolds(s, id, e)
    ensures var k := e.erased - s.conns[id].erased;
      && (k == 1 ==> InMap(s, id) && !InMap(Put(s, id, e), id))
      && |Put(s, id, e).connections| == |s.connections| - k
  {
    if e.erased > s.conns[id].erased { EraseShrinks(s.connections, NameOf(s, id)); }
  }

  lemma {:induction false} EraseCounts(s: State, a: Step)
    requires Inv(s) && Enabled(s, a) && AssertsHold(s, a) && Inv(Next(s, a)) && (a.Handle? || a.Run?)
    ensures var k := Erasures(s, Next(s, a), a.id);
      && (k == 0 || (k == 1 && InMap(s, a.id) && !InMap(Next(s, a), a.id)))
      && (k == 1 <==> Erases(s, a)) && |Next(s, a).connections| == |s.connections| - k
  {
    assert Fine(s, a.id) && Fine(Next(s, a), a.id);
    PutErases(s, a.id, Next(s, a).conns[a.id]);
  }

  /** `removeConnectionInLoop` as a functor, written out. */
  lemma RemoveStep(s: State, id: Id)
    requires Enabled(s, Run(id, RemoveTask)) && AssertsHold(s, Run(id, RemoveTask))
    ensures InMap(s, id)
    ensures Next(s, Run(id, RemoveTask)) ==
      s.(conns := s.conns[id := Removed(Dequeue(s.conns[id], RemoveTask))], connections := s.connections - {NameOf(s, id)})
  {
  }

  lemma EraseShrinks(m: map<string, Id>, key: string)
    requires key in m
    ensures |m - {key}| == |m| - 1
  {
    assert (m - {key}).Keys == m.Keys - {key};
  }

  /**
   * Over every run a connection's callback fires once up and then once down, it leaves the map at
   * most once and after going down, and it is destroyed at most once and after leaving the map;
   * what is still to come is exactly what is queued. On the server's own loop it is up as soon as it
   * is accepted and out of the map as soon as it is down. Once down it watches for reads exactly if
   * startRead was the last read toggle, and never for writes. A destroyed connection is off the
   * poller, as the channel's destructor asserts, exactly if no read toggle took effect since.
   */
  lemma {:induction false} ConnectionLifecycle(name: string, addr: SockAddr, size: BufferSize, steps: seq<Step>, id: Id)
    requires ValidSteps(Init(name, addr, size), steps)
    requires id in AfterSteps(Init(name, addr, size), steps).conns
    ensures var s := AfterSteps(Init(name, addr, size), steps); var e := s.conns[id]; var c := e.conn;
      && c.downs <= c.ups <= 1 && e.destroyed <= e.erased <= c.downs
      && (c.ups == 0 <==> c.state.Connecting?) && (c.downs == 1 <==> c.state.Disconnected?)
      && (InMap(s, id) <==> e.erased == 0)
      && Count(e, EstablishTask) == 1 - c.ups
      && Count(e, RemoveTask) + Count(e, DestroyTask) == c.downs - e.destroyed
      && (e.loop == SERVER_LOOP ==> c.ups == 1 && e.erased == c.downs)
      && (c.state.Disconnected? ==> !c.interest.write && (c.interest.read <==> e.restarted))
      && (e.destroyed == 1 ==> (c.interest.added <==> e.touched))
  {
    InitInv(name, addr, size);
    RunKeepsInv(Init(name, addr, size), steps);
    assert Fine(AfterSteps(Init(name, addr, size), steps), id);
  }

  /** Ids are given out consecutively from 1, one to each accepted connection, on the loop chosen for it. */
  lemma {:induction false} IdsAreConsecutive(name: string, addr: SockAddr, size: BufferSize, steps: seq<Step>)
    requires ValidSteps(Init(name, addr, size), steps)
    ensures var s := AfterSteps(Init(name, addr, size), steps);
      && s.nextConnId == 1 + Accepts(steps)
      && forall id :: id in s.conns <==> 1 <= id < s.nextConnId
  {
    if steps != [] {
      var n := |steps| - 1;
      IdsAreConsecutive(name, addr, size, steps[..n]);
      KeysStep(AfterSteps(Init(name, addr, size), steps[..n]), steps[n]);
    }
  }

  lemma {:induction false} KeysStep(s: State, a: Step)
    requires Enabled(s, a) && AssertsHold(s, a)
    ensures Next(s, a).nextConnId == s.nextConnId + (if a.Accept? then 1 else 0)
    ensures forall id :: id in Next(s, a).conns <==> id in s.conns || (a.Accept? && id == s.nextConnId)
  {
  }

  function Accepts(steps: seq<Step>): nat {
    if steps == [] then 0 else Accepts(steps[..|steps| - 1]) + (if steps[|steps| - 1].Accept? then 1 else 0)
  }

  lemma AcceptEffect(s: State, loop: LoopId, mark: nat)
    requires Enabled(s, Accept(loop, mark))
    ensures var s' := Next(s, Accept(loop, mark)); var e := s'.conns[s.nextConnId];
      && e.loop == loop && e.conn.mark == mark && InMap(s', s.nextConnId)
      && (Live(e.conn) <==> loop == SERVER_LOOP) && Count(e, ForceCloseTask) == 0 && !e.dispatch
  {
  }

  // ---------- forced closes ----------

  /** How many forced closes a step queues for connection `id`: one for each call of forceClose while it is up. */
  function Forced(e: Entry, a: Step): nat {
    match a
    case User(_, op) => if op.ForceClose? && Live(e.conn) then 1 else 0
    case Handle(_, ev) => if Live(e.conn) && !ClosesFirst(ev.revents) then ForceCloses(Calls(ev)) else 0
    case _ => 0
  }

  lemma {:induction false} HandledQueues(e: Entry, ev: Event)
    requires ValidRun(e.conn, Steps(ev))
    ensures Count(Handled(e, ev), ForceCloseTask) == Count(e, ForceCloseTask) + Forced(e, Handle(0, ev))
  {
  }

  lemma {:induction false} RanQueues(e: Entry, t: Task)
    requires Count(e, t) > 0 && TaskAsserts(e, t)
    ensures Count(Ran(e, t), ForceCloseTask) == Count(e, ForceCloseTask) - (if t.ForceCloseTask? then 1 else 0)
  {
  }

  /** Forced closes are queued for these calls and for no other reason, and each runs once. */
  lemma {:induction false} ForceCloseQueued(s: State, a: Step, id: Id)
    requires Inv(s) && Enabled(s, a) && AssertsHold(s, a) && id in s.conns && id in Next(s, a).conns
    ensures Count(Next(s, a).conns[id], ForceCloseTask) ==
      Count(s.conns[id], ForceCloseTask) + (if (a.User? || a.Handle?) && a.id == id then Forced(s.conns[id], a) else 0)
      - (if a == Run(id, ForceCloseTask) then 1 else 0)
  {
    match a
    case Accept(_, _) => FreshId(s);
    case Handle(i, ev) => HandledQueues(s.conns[i], ev);
    case Run(i, t) => RanQueues(s.conns[i], t);
    case _ =>
  }

  lemma FreshId(s: State)
    requires Inv(s)
    ensures s.nextConnId !in s.conns
  {
    assert s.nextConnId in s.conns ==> Fine(s, s.nextConnId);
  }

  /** When it runs, the connection is down. */
  lemma {:induction false} ForceCloseCloses(s: State, id: Id)
    requires Inv(s) && Enabled(s, Run(id, ForceCloseTask))
    ensures AssertsHold(s, Run(id, ForceCloseTask))
    ensures var c, c' := s.conns[id].conn, Next(s, Run(id, ForceCloseTask)).conns[id].conn;
      !Live(c') && (Live(c) ==> c'.state.Disconnected? && c'.downs == c.downs + 1) && (!Live(c) ==> c' == c)
  {
    StepKeepsInv(s, Run(id, ForceCloseTask));
    assert Fine(s, id);
  }

  // ---------- runs that fail an assert ----------

  lemma ExtendSteps(s: State, steps: seq<Step>, a: Step)
    requires ValidSteps(s, steps) && Enabled(AfterSteps(s, steps), a) && AssertsHold(AfterSteps(s, steps), a)
    ensures ValidSteps(s, steps + [a]) && AfterSteps(s, steps + [a]) == Next(AfterSteps(s, steps), a)
  {
    assert (steps + [a])[..|steps|] == steps;
  }

  const END_OF_FILE := Event({PollIn}, Eof, [], 0)
  const IO_LOOP: LoopId := 1

  /** Connection 1 on `loop` is up and reads, or is down; the loop dispatches events or does not. */
  predicate Stands(s: State, loop: LoopId, up: bool, handling: bool) {
    && 1 in s.conns && s.conns[1].loop == loop && s.conns[1].conn.reading
    && s.conns[1].destroyed == 0 && (loop in s.handling <==> handling)
    && if up then Live(s.conns[1].conn) && s.conns[1].conn.interest.read
       else s.conns[1].conn.state.Disconnected? && (loop == SERVER_LOOP ==> Count(s.conns[1], DestroyTask) == 1)
  }

  /** The first connection is accepted and comes up, at once on the server's loop. */
  lemma {:induction false} ComesUp(s: State, loop: LoopId)
    requires s.nextConnId == 1 && s.handling == {}
    ensures Enabled(s, Accept(loop, 0)) && AssertsHold(s, Accept(loop, 0))
    ensures var s1 := Next(s, Accept(loop, 0));
      && (loop == SERVER_LOOP ==> Stands(s1, loop, true, false))
      && (loop != SERVER_LOOP ==>
            && Enabled(s1, Run(1, EstablishTask)) && AssertsHold(s1, Run(1, EstablishTask))
            && Stands(Next(s1, Run(1, EstablishTask)), loop, true, false))
  {
    var s1 := Next(s, Accept(loop, 0));
    assert s1.conns[1] == Fresh(loop, 0);
    if loop != SERVER_LOOP {
      assert Count(s1.conns[1], EstablishTask) == 1;
      assert Ran(s1.conns[1], EstablishTask).erased == s1.conns[1].erased;
    }
  }

  lemma {:induction false} AcceptOn(name: string, addr: SockAddr, size: BufferSize, loop: LoopId) returns (steps: seq<Step>)
    ensures ValidSteps(Init(name, addr, size), steps) && Stands(AfterSteps(Init(name, addr, size), steps), loop, true, false)
  {
    var s0 := Init(name, addr, size);
    ComesUp(s0, loop);
    ExtendSteps(s0, [], Accept(loop, 0));
    steps := [] + [Accept(loop, 0)];
    if loop != SERVER_LOOP {
      ExtendSteps(s0, steps, Run(1, EstablishTask));
      steps := steps + [Run(1, EstablishTask)];
    }
  }

  /** The connection reads end of file and goes down. */
  lemma {:induction false} ReadsEndOfFile(s: State, loop: LoopId)
    requires Inv(s) && Stands(s, loop, true, false)
    ensures Enabled(s, BeginHandling(loop, {1})) && AssertsHold(s, BeginHandling(loop, {1}))
    ensures var s1 := Next(s, BeginHandling(loop, {1}));
      && Enabled(s1, Handle(1, END_OF_FILE)) && AssertsHold(s1, Handle(1, END_OF_FILE))
      && Stands(Next(s1, Handle(1, END_OF_FILE)), loop, false, true)
      && !Next(s1, Handle(1, END_OF_FILE)).conns[1].restarted
  {
    assert Fine(s, 1);
    var s1 := Next(s, BeginHandling(loop, {1}));
    PhaseKeepsInv(s, BeginHandling(loop, {1}));
    StepKeepsInv(s1, Handle(1, END_OF_FILE));
    CloseStep(s1.conns[1].conn);
    assert Steps(END_OF_FILE) == [HandleClose];
  }

  lemma {:induction false} AcceptAndClose(name: string, addr: SockAddr, size: BufferSize, loop: LoopId)
    returns (steps: seq<Step>)
    ensures ValidSteps(Init(name, addr, size), steps)
    ensures var s := AfterSteps(Init(name, addr, size), steps);
      Inv(s) && Stands(s, loop, false, true) && !s.conns[1].restarted
  {
    var s0 := Init(name, addr, size);
    InitInv(name, addr, size);
    steps := AcceptOn(name, addr, size, loop);
    RunKeepsInv(s0, steps);
    ReadsEndOfFile(AfterSteps(s0, steps), loop);
    ExtendSteps(s0, steps, BeginHandling(loop, {1}));
    steps := steps + [BeginHandling(loop, {1})];
    ExtendSteps(s0, steps, Handle(1, END_OF_FILE));
    steps := steps + [Handle(1, END_OF_FILE)];
    RunKeepsInv(s0, steps);
  }

  /** startRead runs on a connection that is down, and the loop finishes its events. */
  lemma {:induction false} Restart(s: State, loop: LoopId)
    requires Inv(s) && Stands(s, loop, false, true)
    ensures Enabled(s, User(1, StartRead)) && AssertsHold(s, User(1, StartRead))
    ensures var s1 := Next(s, User(1, StartRead));
      && Enabled(s1, EndHandling(loop)) && AssertsHold(s1, EndHandling(loop))
      && var s2 := Next(s1, EndHandling(loop));
         Stands(s2, loop, false, false) && s2.conns[1].conn.interest.read && s2.conns[1].restarted
  {
    assert Fine(s, 1);
  }

  lemma {:induction false} RestartAfterClose(name: string, addr: SockAddr, size: BufferSize, loop: LoopId)
    returns (steps: seq<Step>)
    ensures ValidSteps(Init(name, addr, size), steps)
    ensures var s := AfterSteps(Init(name, addr, size), steps);
      Inv(s) && Stands(s, loop, false, false) && s.conns[1].conn.interest.read && s.conns[1].restarted
  {
    var s0 := Init(name, addr, size);
    InitInv(name, addr, size);
    steps := AcceptAndClose(name, addr, size, loop);
    Restart(AfterSteps(s0, steps), loop);
    ExtendSteps(s0, steps, User(1, StartRead));
    steps := steps + [User(1, StartRead)];
    ExtendSteps(s0, steps, EndHandling(loop));
    steps := steps + [EndHandling(loop)];
    RunKeepsInv(s0, steps);
  }

  /**
   * An end of file on a connection that is down and reads again fails the assert of `handleClose`,
   * without POLLHUP: accepted on an I/O loop, closed, startRead, and one more event.
   */
  lemma {:induction false} ClosedAgain(name: string, addr: SockAddr, size: BufferSize) returns (steps: seq<Step>)
    ensures ValidSteps(Init(name, addr, size), steps) && !ClosesTwice(END_OF_FILE)
    ensures var s := AfterSteps(Init(name, addr, size), steps);
      Enabled(s, Handle(1, END_OF_FILE)) && !AssertsHold(s, Handle(1, END_OF_FILE))
  {
    var s0 := Init(name, addr, size);
    InitInv(name, addr, size);
    steps := RestartAfterClose(name, addr, size, IO_LOOP);
    ExtendSteps(s0, steps, BeginHandling(IO_LOOP, {1}));
    steps := steps + [BeginHandling(IO_LOOP, {1})];
    RunKeepsInv(s0, steps);
    StepKeepsInv(AfterSteps(s0, steps), Handle(1, END_OF_FILE));
  }

  /** A connection on the server's loop on which startRead runs after it is closed fails its destruction. */
  lemma {:induction false} DestroyedWhileReading(name: string, addr: SockAddr, size: BufferSize) returns (steps: seq<Step>)
    ensures ValidSteps(Init(name, addr, size), steps)
    ensures var s := AfterSteps(Init(name, addr, size), steps);
      Enabled(s, Run(1, DestroyTask)) && !AssertsHold(s, Run(1, DestroyTask))
  {
    var s0 := Init(name, addr, size);
    steps := RestartAfterClose(name, addr, size, SERVER_LOOP);
    var s := AfterSteps(s0, steps);
    assert Fine(s, 1);
    StepKeepsInv(s, Run(1, DestroyTask));
  }

  // ---------- read toggles on a destroyed connection ----------

  /** A call on a destroyed connection that is off the poller puts it back exactly if it toggles reading. */
  lemma {:induction false} ToggleRegisters(s: State, id: Id, op: Action)
    requires Inv(s) && id in s.conns && s.conns[id].destroyed == 1 && !s.conns[id].conn.interest.added
    requires UserOp(op) && PossibleResult(op)
    ensures Enabled(s, User(id, op)) && AssertsHold(s, User(id, op))
    ensures Next(s, User(id, op)).conns[id].conn.interest.added <==> Toggles(s.conns[id].conn, op)
  {
    assert Fine(s, id);
    StepKeepsInv(s, User(id, op));
    DownCall(s.conns[id].conn, op);
  }

  /** A run after which a destroyed connection is on the poller again, by startRead or by stopRead. */
  lemma {:induction false} DestroyedButRegistered(name: string, addr: SockAddr, size: BufferSize, op: Action)
    returns (steps: seq<Step>)
    requires op.StartRead? || op.StopRead?
    ensures ValidSteps(Init(name, addr, size), steps)
    ensures var s := AfterSteps(Init(name, addr, size), steps);
      1 in s.conns && s.conns[1].destroyed == 1 && s.conns[1].conn.interest.added
  {
    var s0 := Init(name, addr, size);
    InitInv(name, addr, size);
    steps := AcceptAndDestroy(name, addr, size);
    ToggleRegisters(AfterSteps(s0, steps), 1, op);
    ExtendSteps(s0, steps, User(1, op));
    steps := steps + [User(1, op)];
  }

  lemma {:induction false} AcceptAndDestroy(name: string, addr: SockAddr, size: BufferSize) returns (steps: seq<Step>)
    ensures ValidSteps(Init(name, addr, size), steps)
    ensures var s := AfterSteps(Init(name, addr, size), steps);
      && Inv(s) && 1 in s.conns && s.conns[1].destroyed == 1 && !s.conns[1].conn.interest.added
      && s.conns[1].conn.reading && !s.conns[1].conn.interest.read
  {
    var s0 := Init(name, addr, size);
    InitInv(name, addr, size);
    steps := AcceptAndClose(name, addr, size, SERVER_LOOP);
    DestroyNext(AfterSteps(s0, steps));
    ExtendSteps(s0, steps, EndHandling(SERVER_LOOP));
    steps := steps + [EndHandling(SERVER_LOOP)];
    ExtendSteps(s0, steps, Run(1, DestroyTask));
    steps := steps + [Run(1, DestroyTask)];
    RunKeepsInv(s0, steps);
  }

  /** The queued destruction runs once the loop has handled its events. */
  lemma {:induction false} DestroyNext(s: State)
    requires Inv(s) && Stands(s, SERVER_LOOP, false, true) && !s.conns[1].restarted
    ensures Enabled(s, EndHandling(SERVER_LOOP)) && AssertsHold(s, EndHandling(SERVER_LOOP))
    ensures var s1 := Next(s, EndHandling(SERVER_LOOP));
      && Enabled(s1, Run(1, DestroyTask)) && AssertsHold(s1, Run(1, DestroyTask))
      && var s2 := Next(s1, Run(1, DestroyTask));
         1 in s2.conns && s2.conns[1].destroyed == 1 && !s2.conns[1].conn.interest.added
         && s2.conns[1].conn.reading && !s2.conns[1].conn.interest.read
  {
    assert Fine(s, 1);
  }
}
