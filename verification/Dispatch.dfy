/**
 * How memcached hands connections to its worker threads: the main thread pushes an item on a
 * worker's queue and then writes a byte to that worker's pipe; the worker reads one byte at a time.
 */
module Dispatch {

  datatype Transport = Tcp | Udp

  datatype Item = Item(sfd: int, initState: nat, eventFlags: int, readBufferSize: int, transport: Transport)

  datatype LockType = Granular | Global

  /** Bytes on a notification pipe: 'c', 'l', 'g'. */
  datatype Note = NewConn | UseGranular | UseGlobal

  datatype Worker = Worker(
    queue: seq<Item>,
    pipe: seq<Note>,
    lock: LockType,
    taken: seq<Item>,          // history: items popped
    missed: nat,               // history: notifications whose write failed
    stray: nat,                // history: items popped on an unset byte
    wasted: nat)               // history: 'c' bytes that found the queue empty

  /** The byte the worker acts on after a failed read: it was never set. */
  datatype Unset = Looks(note: Note) | Junk

  datatype Pending = Idle | Pushed(worker: nat)

  datatype State = State(
    workers: seq<Worker>,
    lastThread: int,
    pending: Pending,          // the main thread is between its push and its write
    dispatched: seq<Item>,     // history: items pushed, in order
    closed: seq<int>)          // history: descriptors closed on a failure

  function NewWorker(): Worker {
    Worker([], [], Granular, [], 0, 0, 0)
  }

  function Init(n: nat, lastThread: int): State {
    State(seq(n, _ => NewWorker()), lastThread, Idle, [], [])
  }

  datatype Action =
    | Push(item: Item, gotMemory: bool)      // dispatch_conn_new up to its push
    | Notify(written: bool)                  // its write to the pipe
    | Flip(worker: nat, lock: LockType)      // the byte that switches the lock type
    | Process(worker: nat, created: bool)    // thread_libevent_process; the result of conn_new
    | Misread(worker: nat, unset: Unset, created: bool)    // the same when its read fails

  predicate Enabled(s: State, a: Action) {
    && |s.workers| > 0 && -1 <= s.lastThread < |s.workers|
    && match a
       case Push(_, _) => s.pending.Idle?
       case Notify(_) => s.pending.Pushed? && s.pending.worker < |s.workers|
       case Flip(w, _) => w < |s.workers|
       case Process(w, created) =>
         w < |s.workers| && s.workers[w].pipe != [] && !Exits(s.workers[w], s.workers[w].pipe[0], created)
       case Misread(w, unset, created) =>
         w < |s.workers| && (unset.Looks? ==> !Exits(s.workers[w], unset.note, created))
  }

  /** The byte makes the worker take a connection. */
  predicate Takes(w: Worker, note: Note) {
    note.NewConn? && w.queue != []
  }

  /** A UDP socket that cannot be listened on ends the process. */
  predicate Exits(w: Worker, note: Note, created: bool) {
    Takes(w, note) && w.queue[0].transport.Udp? && !created
  }

  function Turn(s: State): (tid: nat)
    requires |s.workers| > 0 && -1 <= s.lastThread < |s.workers|
  {
    (s.lastThread + 1) % |s.workers|
  }

  function Pop(w: Worker): Worker {
    if w.queue == [] then w else w.(queue := w.queue[1..], taken := w.taken + [w.queue[0]])
  }

  /** The switch of `thread_libevent_process`. */
  function Act(w: Worker, note: Note): Worker {
    match note
    case NewConn => Pop(w)
    case UseGranular => w.(lock := Granular)
    case UseGlobal => w.(lock := Global)
  }

  function Processed(w: Worker): Worker
    requires w.pipe != []
  {
    var note := w.pipe[0];
    Act(w.(pipe := w.pipe[1..], wasted := if note.NewConn? && w.queue == [] then w.wasted + 1 else w.wasted), note)
  }

  function Misreads(w: Worker, unset: Unset): Worker {
    if unset.Junk? then w
    else Act(w.(stray := if Takes(w, unset.note) then w.stray + 1 else w.stray), unset.note)
  }

  /** The descriptor is closed when conn_new fails for the connection taken. */
  function Closed(s: State, w: Worker, takes: bool, created: bool): seq<int>
    requires takes ==> w.queue != []
  {
    if takes && !created then s.closed + [w.queue[0].sfd] else s.closed
  }

  function Next(s: State, a: Action): State
    requires Enabled(s, a)
  {
    match a
    case Push(item, gotMemory) =>
      if !gotMemory then s.(closed := s.closed + [item.sfd])
      else
        var tid := Turn(s);
        var w := s.workers[tid];
        s.(workers := s.workers[tid := w.(queue := w.queue + [item])],
           lastThread := tid, pending := Pushed(tid), dispatched := s.dispatched + [item])
    case Notify(written) =>
      var w := s.workers[s.pending.worker];
      var w' := if written then w.(pipe := w.pipe + [NewConn]) else w.(missed := w.missed + 1);
      s.(workers := s.workers[s.pending.worker := w'], pending := Idle)
    case Flip(t, lock) =>
      var w := s.workers[t];
      s.(workers := s.workers[t := w.(pipe := w.pipe + [if lock.Granular? then UseGranular else UseGlobal])])
    case Process(t, created) =>
      var w := s.workers[t];
      s.(workers := s.workers[t := Processed(w)], closed := Closed(s, w, Takes(w, w.pipe[0]), created))
    case Misread(t, unset, created) =>
      var w := s.workers[t];
      s.(workers := s.workers[t := Misreads(w, unset)],
         closed := Closed(s, w, unset.Looks? && Takes(w, unset.note), created))
  }

  ghost predicate ValidRun(s: State, acts: seq<Action>)
    decreases |acts|, 0
  {
    acts == [] ||
    (var n := |acts| - 1;
     ValidRun(s, acts[..n]) && Enabled(After(s, acts[..n]), acts[n]))
  }

  ghost function After(s: State, acts: seq<Action>): State
    requires ValidRun(s, acts)
    decreases |acts|, 1
  {
    if acts == [] then s
    else
      var n := |acts| - 1;
      Next(After(s, acts[..n]), acts[n])
  }

  // ---------- the round robin as a partition ----------

  /** The worker of dispatch number `i` when number 0 goes to `first`. */
  function Rotate(first: nat, n: nat, i: nat): (r: nat)
    requires first < n
    ensures r < n
  {
    if i == 0 then first
    else if Rotate(first, n, i - 1) + 1 == n then 0
    else Rotate(first, n, i - 1) + 1
  }

  /** The items of `d` that the rotation gives to worker `w`. */
  function Share(d: seq<Item>, first: nat, n: nat, w: nat): seq<Item>
    requires first < n
  {
    if d == [] then []
    else
      var i := |d| - 1;
      Share(d[..i], first, n, w) + (if Rotate(first, n, i) == w then [d[i]] else [])
  }

  /** Turns from worker `a` to worker `b`. */
  function Distance(a: nat, b: nat, n: nat): (r: nat)
    requires a < n && b < n
    ensures r < n && (a + r == b || a + r == b + n)
  {
    if a <= b then b - a else b - a + n
  }

  /** k * n, by repeated addition. */
  function Times(k: nat, n: nat): nat {
    if k == 0 then 0 else Times(k - 1, n) + n
  }

  lemma {:induction false} TimesIsProduct(k: nat, n: nat)
    ensures Times(k, n) == k * n
  {
    if k > 0 {
      TimesIsProduct(k - 1, n);
      assert k * n == (k - 1) * n + n;
    }
  }

  lemma {:induction false} TimesGap(j: nat, k: nat, n: nat)
    requires j < k
    ensures Times(j, n) + n <= Times(k, n)
  {
    if j < k - 1 { TimesGap(j, k - 1, n); }
  }

  /** After |d| turns worker `w` waits for its next turn. */
  lemma {:induction false} ShareTimes(d: seq<Item>, first: nat, n: nat, w: nat)
    requires first < n && w < n
    ensures Times(|Share(d, first, n, w)|, n) == |d| - Distance(first, w, n) + Distance(Rotate(first, n, |d|), w, n)
  {
    if d != [] {
      ShareTimes(d[..|d| - 1], first, n, w);
    }
  }

  lemma {:induction false} ShareAt(d: seq<Item>, first: nat, n: nat, w: nat, k: nat)
    requires first < n && w < n && k < |Share(d, first, n, w)|
    ensures Distance(first, w, n) + Times(k, n) < |d|
    ensures Share(d, first, n, w)[k] == d[Distance(first, w, n) + Times(k, n)]
  {
    var i := |d| - 1;
    if k < |Share(d[..i], first, n, w)| {
      ShareAt(d[..i], first, n, w, k);
    } else {
      ShareTimes(d[..i], first, n, w);
    }
  }

  /** The exact size of a share, and its items: every n-th one from the worker's first turn on, in order. */
  lemma {:induction false} ShareIsEveryNth(d: seq<Item>, first: nat, n: nat, w: nat)
    requires first < n && w < n
    ensures var share := Share(d, first, n, w);
      && |share| * n == |d| - Distance(first, w, n) + Distance(Rotate(first, n, |d|), w, n)
      && forall k: nat :: k < |share| ==> 0 <= Distance(first, w, n) + k * n < |d| && share[k] == d[Distance(first, w, n) + k * n]
  {
    var share := Share(d, first, n, w);
    ShareTimes(d, first, n, w);
    TimesIsProduct(|share|, n);
    forall k: nat | k < |share|
      ensures 0 <= Distance(first, w, n) + k * n < |d| && share[k] == d[Distance(first, w, n) + k * n]
    {
      ShareAt(d, first, n, w, k);
      TimesIsProduct(k, n);
    }
  }

  /** Every dispatched item has exactly one place among the shares: one worker, one position. */
  lemma {:induction false} OneWorkerEach(d: seq<Item>, first: nat, n: nat, i: nat) returns (w: nat, k: nat)
    requires first < n && i < |d|
    ensures w < n && k < |Share(d, first, n, w)| && Share(d, first, n, w)[k] == d[i]
    ensures Distance(first, w, n) + Times(k, n) == i
    ensures forall v: nat, j: nat :: v < n && Distance(first, v, n) + Times(j, n) == i ==> v == w && j == k
  {
    w := Rotate(first, n, i);
    k := |Share(d[..i], first, n, w)|;
    ShareTimes(d[..i], first, n, w);
    ShareGrows(d, first, n, w, i + 1);
    assert d[..i + 1][..i] == d[..i];
    ShareAt(d, first, n, w, k);
    forall v: nat, j: nat | v < n && Distance(first, v, n) + Times(j, n) == i ensures v == w && j == k {
      if j < k { TimesGap(j, k, n); }
      if k < j { TimesGap(k, j, n); }
    }
  }

  lemma {:induction false} ShareGrows(d: seq<Item>, first: nat, n: nat, w: nat, i: nat)
    requires first < n && i <= |d|
    ensures |Share(d[..i], first, n, w)| <= |Share(d, first, n, w)|
    decreases |d|
  {
    if i < |d| {
      var m := |d| - 1;
      ShareGrows(d[..m], first, n, w, i);
      assert d[..m][..i] == d[..i];
    } else {
      assert d[..i] == d;
    }
  }

  lemma {:induction false} SharesBalanced(d: seq<Item>, first: nat, n: nat, v: nat, w: nat)
    requires first < n && v < n && w < n
    ensures |Share(d, first, n, v)| <= |Share(d, first, n, w)| + 1
  {
    var a, b := |Share(d, first, n, v)|, |Share(d, first, n, w)|;
    ShareTimes(d, first, n, v);
    ShareTimes(d, first, n, w);
    if b + 1 < a {
      TimesGap(b, b + 1, n);
      TimesGap(b + 1, a, n);
    }
  }

  // ---------- the invariant ----------

  function Conns(pipe: seq<Note>): nat {
    if pipe == [] then 0 else (if pipe[0].NewConn? then 1 else 0) + Conns(pipe[1..])
  }

  lemma {:induction false} ConnsSnoc(pipe: seq<Note>, b: Note)
    ensures Conns(pipe + [b]) == Conns(pipe) + (if b.NewConn? then 1 else 0)
  {
    if pipe == [] {
      assert pipe + [b] == [b];
    } else {
      ConnsSnoc(pipe[1..], b);
      assert (pipe + [b])[1..] == pipe[1..] + [b];
    }
  }

  /**
   * Items queued or taken on an unset byte are those announced, about to be announced, or with a
   * failed announcement, plus one for every announcement that found the queue empty.
   */
  predicate Balanced(w: Worker, underWay: bool) {
    && |w.queue| + w.stray == Conns(w.pipe) + (if underWay then 1 else 0) + w.missed + w.wasted
    && w.wasted <= w.stray
  }

  /** One worker: its queue against its pipe, and its history against its share. */
  predicate Fine(s: State, first: nat, t: nat)
    requires first < |s.workers| && t < |s.workers|
  {
    var w := s.workers[t];
    && Balanced(w, s.pending == Pushed(t))
    && w.taken + w.queue == Share(s.dispatched, first, |s.workers|, t)
  }

  ghost predicate Inv(s: State, first: nat) {
    && first < |s.workers| && -1 <= s.lastThread < |s.workers|
    && (s.pending.Pushed? ==> s.pending.worker < |s.workers|)
    && Turn(s) == Rotate(first, |s.workers|, |s.dispatched|)
    && (forall t: nat {:trigger Fine(s, first, t)} :: t < |s.workers| ==> Fine(s, first, t))
  }

  lemma Wraps(r: int, n: int)
    requires -1 <= r < n && n > 0
    ensures (r + 1) % n == if r + 1 == n then 0 else r + 1
  {
  }

  /** The item joins the share of the worker whose turn it is, and no other share. */
  lemma {:induction false} PushExtendsShare(s: State, first: nat, item: Item, t: nat)
    requires Inv(s, first) && t < |s.workers|
    ensures Share(s.dispatched + [item], first, |s.workers|, t) ==
            s.workers[t].taken + (s.workers[t].queue + if t == Turn(s) then [item] else [])
  {
    assert (s.dispatched + [item])[..|s.dispatched|] == s.dispatched;
    assert Fine(s, first, t);
  }

  lemma {:induction false} PushKeepsInv(s: State, first: nat, item: Item)
    requires Inv(s, first) && s.pending.Idle?
    ensures Inv(Next(s, Push(item, true)), first)
  {
    var s', n, r := Next(s, Push(item, true)), |s.workers|, Turn(s);
    Wraps(r, n);
    assert Rotate(first, n, |s'.dispatched|) == (r + 1) % n;
    forall t: nat | t < n ensures Fine(s', first, t) {
      assert Fine(s, first, t);
      PushExtendsShare(s, first, item, t);
      assert s.workers[t].queue + [] == s.workers[t].queue;
    }
  }

  lemma {:induction false} WorkerKeepsInv(s: State, first: nat, t: nat, w: Worker, pending: Pending, closed: seq<int>)
    requires Inv(s, first) && t < |s.workers|
    requires pending == s.pending || (s.pending == Pushed(t) && pending.Idle?)
    requires Balanced(w, pending == Pushed(t))
    requires w.taken + w.queue == s.workers[t].taken + s.workers[t].queue
    ensures Inv(s.(workers := s.workers[t := w], pending := pending, closed := closed), first)
  {
    var s' := s.(workers := s.workers[t := w], pending := pending, closed := closed);
    forall u: nat | u < |s'.workers| ensures Fine(s', first, u) {
      assert Fine(s, first, u);
    }
  }

  lemma {:induction false} StepKeepsInv(s: State, first: nat, a: Action)
    requires Inv(s, first) && Enabled(s, a)
    ensures Inv(Next(s, a), first)
  {
    match a
    case Push(item, gotMemory) =>
      if gotMemory {
        PushKeepsInv(s, first, item);
      } else {
        assert Fine(s, first, 0);
        WorkerKeepsInv(s, first, 0, s.workers[0], s.pending, Next(s, a).closed);
        assert s.workers[0 := s.workers[0]] == s.workers;
      }
    case Notify(written) =>
      var t := s.pending.worker;
      var w := s.workers[t];
      assert Fine(s, first, t);
      ConnsSnoc(w.pipe, NewConn);
      WorkerKeepsInv(s, first, t, if written then w.(pipe := w.pipe + [NewConn]) else w.(missed := w.missed + 1), Idle, s.closed);
    case Flip(t, lock) =>
      var w, b := s.workers[t], if lock.Granular? then UseGranular else UseGlobal;
      assert Fine(s, first, t);
      ConnsSnoc(w.pipe, b);
      WorkerKeepsInv(s, first, t, w.(pipe := w.pipe + [b]), s.pending, s.closed);
    case Process(t, _) =>
      var w := s.workers[t];
      assert Fine(s, first, t);
      ProcessedFine(w, s.pending == Pushed(t));
      WorkerKeepsInv(s, first, t, Processed(w), s.pending, Next(s, a).closed);
    case Misread(t, unset, _) =>
      var w := s.workers[t];
      assert Fine(s, first, t);
      MisreadsFine(w, unset, s.pending == Pushed(t));
      WorkerKeepsInv(s, first, t, Misreads(w, unset), s.pending, Next(s, a).closed);
  }

  lemma PopSplits(w: Worker)
    ensures Pop(w).taken + Pop(w).queue == w.taken + w.queue
  {
    if w.queue != [] {
      assert w.queue == [w.queue[0]] + w.queue[1..];
    }
  }

  lemma {:induction false} ProcessedFine(w: Worker, underWay: bool)
    requires w.pipe != [] && Balanced(w, underWay)
    ensures Balanced(Processed(w), underWay) && Processed(w).taken + Processed(w).queue == w.taken + w.queue
  {
    PopSplits(w);
  }

  lemma {:induction false} MisreadsFine(w: Worker, unset: Unset, underWay: bool)
    requires Balanced(w, underWay)
    ensures var w' := Misreads(w, unset); Balanced(w', underWay) && w'.taken + w'.queue == w.taken + w.queue
  {
    PopSplits(w);
  }

  lemma {:induction false} RunKeepsInv(s: State, first: nat, acts: seq<Action>)
    requires Inv(s, first) && ValidRun(s, acts)
    ensures Inv(After(s, acts), first)
  {
    if acts != [] {
      var n := |acts| - 1;
      RunKeepsInv(s, first, acts[..n]);
      StepKeepsInv(After(s, acts[..n]), first, acts[n]);
    }
  }

  ghost predicate Reached(n: nat, last: int, acts: seq<Action>) {
    n > 0 && -1 <= last < n && ValidRun(Init(n, last), acts)
  }

  /** The worker the first dispatch goes to. */
  function First(n: nat, last: int): nat
    requires n > 0 && -1 <= last < n
  {
    (last + 1) % n
  }

  lemma {:induction false} ReachedInv(n: nat, last: int, acts: seq<Action>)
    requires Reached(n, last, acts)
    ensures Inv(After(Init(n, last), acts), First(n, last)) && |After(Init(n, last), acts).workers| == n
  {
    var s := Init(n, last);
    forall t: nat | t < n ensures Fine(s, First(n, last), t) {
    }
    RunKeepsInv(s, First(n, last), acts);
    WorkersStay(s, acts);
  }

  lemma {:induction false} WorkersStay(s: State, acts: seq<Action>)
    requires ValidRun(s, acts)
    ensures |After(s, acts).workers| == |s.workers|
  {
    if acts != [] {
      WorkersStay(s, acts[..|acts| - 1]);
    }
  }

  // ---------- theorems ----------

  /**
   * A worker's queue holds one item per unread 'c', plus the dispatch between push and write, plus
   * one for every failed write, less the items taken on misreads that no wasted 'c' has made up for.
   * A 'c' pops the oldest item given to this worker and not yet taken, if there is one; without
   * misreads there always is.
   */
  lemma {:induction false} EveryNotePops(n: nat, last: int, acts: seq<Action>, t: nat)
    requires Reached(n, last, acts) && t < n
    ensures |After(Init(n, last), acts).workers| == n
    ensures var s := After(Init(n, last), acts); var w := s.workers[t];
      && |w.queue| + w.stray == Conns(w.pipe) + (if s.pending == Pushed(t) then 1 else 0) + w.missed + w.wasted
      && (w.pipe != [] && w.pipe[0].NewConn? ==>
            var share := Share(s.dispatched, First(n, last), n, t);
            && (w.stray == w.wasted ==> w.queue != [])
            && (w.queue != [] ==> |w.taken| < |share| && Processed(w).taken == share[..|w.taken| + 1]))
  {
    ReachedInv(n, last, acts);
    var s := After(Init(n, last), acts);
    var w := s.workers[t];
    assert Fine(s, First(n, last), t);
    if w.pipe != [] && w.pipe[0].NewConn? {
      var share := Share(s.dispatched, First(n, last), n, t);
      assert share == w.taken + w.queue;
    }
  }

  /**
   * Each worker takes the items of its turns in dispatch order. Once its pipe is empty and no
   * dispatch is under way it has taken all of them exactly if misreads made up for the failed writes
   * and the wasted bytes; without misreads, exactly if no write to its pipe failed.
   */
  lemma {:induction false} HandoffInOrder(n: nat, last: int, acts: seq<Action>, t: nat)
    requires Reached(n, last, acts) && t < n
    ensures |After(Init(n, last), acts).workers| == n
    ensures var s := After(Init(n, last), acts); var w := s.workers[t];
      var share := Share(s.dispatched, First(n, last), n, t);
      && w.taken <= share && w.taken + w.queue == share
      && (w.pipe == [] && s.pending.Idle? ==> (w.taken == share <==> w.stray == w.missed + w.wasted))
  {
    ReachedInv(n, last, acts);
    assert Fine(After(Init(n, last), acts), First(n, last), t);
  }

  /** Without misreads nothing is taken early and no 'c' is wasted. */
  lemma {:induction false} NoMisreads(n: nat, last: int, acts: seq<Action>, t: nat)
    requires Reached(n, last, acts) && t < n && forall a :: a in acts ==> !a.Misread?
    ensures |After(Init(n, last), acts).workers| == n
    ensures var w := After(Init(n, last), acts).workers[t]; w.stray == 0 && w.wasted == 0
  {
    ReachedInv(n, last, acts);
    assert Fine(After(Init(n, last), acts), First(n, last), t);
    StrayStays(Init(n, last), acts, t);
  }

  lemma {:induction false} StrayStays(s: State, acts: seq<Action>, t: nat)
    requires ValidRun(s, acts) && t < |s.workers| && forall a :: a in acts ==> !a.Misread?
    ensures |After(s, acts).workers| == |s.workers| && After(s, acts).workers[t].stray == s.workers[t].stray
  {
    if acts != [] {
      StrayStays(s, acts[..|acts| - 1], t);
      assert acts[|acts| - 1] in acts;
    }
  }

  /** Per-worker totals never differ by more than one, whatever allocations failed in between. */
  lemma {:induction false} TotalsDifferByAtMostOne(n: nat, last: int, acts: seq<Action>, v: nat, w: nat)
    requires Reached(n, last, acts) && v < n && w < n
    ensures |After(Init(n, last), acts).workers| == n
    ensures var s := After(Init(n, last), acts);
      -1 <= (|s.workers[v].taken| + |s.workers[v].queue|) - (|s.workers[w].taken| + |s.workers[w].queue|) <= 1
  {
    ReachedInv(n, last, acts);
    var s := After(Init(n, last), acts);
    assert Fine(s, First(n, last), v) && Fine(s, First(n, last), w);
    SharesBalanced(s.dispatched, First(n, last), n, v, w);
    SharesBalanced(s.dispatched, First(n, last), n, w, v);
  }

  /** The items pushed are those whose allocation succeeded; a failed one takes no turn. */
  function Allocated(acts: seq<Action>): seq<Item> {
    if acts == [] then []
    else
      var a := acts[|acts| - 1];
      Allocated(acts[..|acts| - 1]) + (if a.Push? && a.gotMemory then [a.item] else [])
  }

  lemma {:induction false} FailedAllocationTakesNoTurn(n: nat, last: int, acts: seq<Action>)
    requires Reached(n, last, acts)
    ensures var s := After(Init(n, last), acts);
      && s.dispatched == Allocated(acts)
      && Turn(s) == Rotate(First(n, last), n, |Allocated(acts)|)
  {
    ReachedInv(n, last, acts);
    DispatchedAre(Init(n, last), acts);
  }

  lemma {:induction false} DispatchedAre(s: State, acts: seq<Action>)
    requires ValidRun(s, acts)
    ensures After(s, acts).dispatched == s.dispatched + Allocated(acts)
  {
    if acts != [] {
      DispatchedAre(s, acts[..|acts| - 1]);
    }
  }

  // ---------- what is closed, and what the pipes carry ----------

  /** The descriptors given up in `acts`: no memory for the item, or no connection object. */
  ghost function GivenUp(s: State, acts: seq<Action>): seq<int>
    requires ValidRun(s, acts)
  {
    if acts == [] then []
    else
      var n := |acts| - 1;
      var t, a := After(s, acts[..n]), acts[n];
      GivenUp(s, acts[..n]) +
      (if a.Push? && !a.gotMemory then [a.item.sfd]
       else if TakesNow(t, a) && !a.created then [t.workers[a.worker].queue[0].sfd]
       else [])
  }

  /** The step takes a connection off its worker's queue. */
  predicate TakesNow(s: State, a: Action)
    requires Enabled(s, a)
  {
    || (a.Process? && s.workers[a.worker].pipe[0].NewConn? && s.workers[a.worker].queue != [])
    || (a.Misread? && a.unset == Looks(NewConn) && s.workers[a.worker].queue != [])
  }

  /** Over every run exactly these descriptors are closed, in this order. */
  lemma {:induction false} ClosedIsGivenUp(s: State, acts: seq<Action>)
    requires ValidRun(s, acts)
    ensures After(s, acts).closed == s.closed + GivenUp(s, acts)
  {
    if acts != [] {
      ClosedIsGivenUp(s, acts[..|acts| - 1]);
    }
  }

  /** The bytes written to the pipe of worker `t` in `acts`. */
  ghost function Written(s: State, acts: seq<Action>, t: nat): seq<Note>
    requires ValidRun(s, acts)
  {
    if acts == [] then []
    else
      var n := |acts| - 1;
      var a := acts[n];
      Written(s, acts[..n], t) +
      (if a.Notify? && a.written && After(s, acts[..n]).pending == Pushed(t) then [NewConn]
       else if a.Flip? && a.worker == t then [if a.lock.Granular? then UseGranular else UseGlobal]
       else [])
  }

  /** The bytes worker `t` read in `acts`. */
  ghost function BytesRead(s: State, acts: seq<Action>, t: nat): seq<Note>
    requires ValidRun(s, acts)
  {
    if acts == [] then []
    else
      var n := |acts| - 1;
      BytesRead(s, acts[..n], t) +
      (if acts[n].Process? && acts[n].worker == t then [After(s, acts[..n]).workers[t].pipe[0]] else [])
  }

  lemma {:induction false} PipeStep(s: State, a: Action, t: nat)
    requires Enabled(s, a) && t < |s.workers|
    ensures |Next(s, a).workers| == |s.workers|
    ensures (if a.Process? && a.worker == t then [s.workers[t].pipe[0]] else []) + Next(s, a).workers[t].pipe ==
      s.workers[t].pipe +
      (if a.Notify? && a.written && s.pending == Pushed(t) then [NewConn]
       else if a.Flip? && a.worker == t then [if a.lock.Granular? then UseGranular else UseGlobal]
       else [])
  {
    if a.Process? && a.worker == t { assert s.workers[t].pipe == [s.workers[t].pipe[0]] + s.workers[t].pipe[1..]; }
  }

  /** Each pipe is a queue: what was read, followed by what is unread, is what was written. */
  lemma {:induction false} PipeIsFifo(s: State, acts: seq<Action>, t: nat)
    requires ValidRun(s, acts) && t < |s.workers| && s.workers[t].pipe == []
    ensures |After(s, acts).workers| == |s.workers|
    ensures BytesRead(s, acts, t) + After(s, acts).workers[t].pipe == Written(s, acts, t)
  {
    if acts != [] {
      var n := |acts| - 1;
      PipeIsFifo(s, acts[..n], t);
      PipeStep(After(s, acts[..n]), acts[n], t);
    }
  }

  /** The byte a step makes worker `t` act on. */
  ghost predicate ActsOn(s: State, a: Action, t: nat, note: Note)
    requires Enabled(s, a)
  {
    (a.Process? && a.worker == t && s.workers[t].pipe[0] == note) || (a.Misread? && a.worker == t && a.unset == Looks(note))
  }

  lemma {:induction false} LockStep(s: State, a: Action, t: nat)
    requires Enabled(s, a) && t < |s.workers| == |Next(s, a).workers|
    ensures Next(s, a).workers[t].lock ==
      if ActsOn(s, a, t, UseGranular) then Granular else if ActsOn(s, a, t, UseGlobal) then Global else s.workers[t].lock
  {
  }

  /** The lock type named by the last 'l' or 'g' that worker `t` acted on; it starts with granular locks. */
  ghost function LastLock(s: State, acts: seq<Action>, t: nat): LockType
    requires ValidRun(s, acts)
  {
    if acts == [] then Granular
    else
      var n := |acts| - 1;
      var u := After(s, acts[..n]);
      if ActsOn(u, acts[n], t, UseGranular) then Granular
      else if ActsOn(u, acts[n], t, UseGlobal) then Global
      else LastLock(s, acts[..n], t)
  }

  lemma {:induction false} LockIsLastNamed(n: nat, last: int, acts: seq<Action>, t: nat)
    requires Reached(n, last, acts) && t < n
    ensures |After(Init(n, last), acts).workers| == n
    ensures After(Init(n, last), acts).workers[t].lock == LastLock(Init(n, last), acts, t)
  {
    WorkersStay(Init(n, last), acts);
    if acts != [] {
      var k := |acts| - 1;
      LockIsLastNamed(n, last, acts[..k], t);
      LockStep(After(Init(n, last), acts[..k]), acts[k], t);
    }
  }
}
