/**
 * The ready-list protocol of eventpoll.c as a transition system. Every step is one `ep->lock`
 * critical section, one iteration of the scan loop (which runs under `ep->mtx` only), or one
 * event outside both locks (a timeout, a signal). Any number of threads and items take part.
 */
module Epoll {
  import opened Sequences
  import opened EventMasks

  type ItemId = nat
  type Tid = nat

  /** `ep->ovflist`: EP_UNACTIVE_PTR outside a scan, otherwise the chain of items, newest first. */
  datatype Overflow = Inactive | Active(chain: seq<ItemId>)

  /**
   * The item side of `struct eventpoll`: the mask of every item whose poll hooks are installed,
   * the red-black tree, the `f_ep_links` entries, the ready list, the list stolen by the running
   * scan and the overflow chain.
   */
  datatype Lists = Lists(
    items: map<ItemId, Mask>,
    tree: set<ItemId>,
    links: set<ItemId>,
    rdl: seq<ItemId>,
    tx: seq<ItemId>,
    ovf: Overflow)

  /** Where a thread is inside `ep_poll`; a thread that is not in the map is outside it. */
  datatype Thread =
    | Fetching(max: nat)                     // at fetch_events, before taking the lock
    | Asleep(max: nat)                       // on the wait queue, in schedule_hrtimeout_range
    | Awake(max: nat, timedOut: bool)        // on the wait queue, about to retake the lock
    | Committed(max: nat, timedOut: bool)    // saw events, about to enter ep_scan_ready_list
    | Scanning(max: nat, timedOut: bool)     // holds the mutex in ep_scan_ready_list

  /** The holder of `ep->mtx`. A scan records what it polled and what it delivered. */
  datatype Mutex =
    | Free
    | Ctl(item: ItemId, inTree: bool)
    | Scan(tid: Tid, polled: seq<ItemId>, sent: seq<ItemId>, faulted: bool)

  /** The threads inside `ep_poll` and the wait queue `ep->wq`, oldest waiter first. */
  datatype Waiters = Waiters(threads: map<Tid, Thread>, wq: seq<Tid>)

  datatype State = State(l: Lists, w: Waiters, mtx: Mutex)

  const INIT := State(Lists(map[], {}, {}, [], [], Inactive), Waiters(map[], []), Free)

  // ---------- the item side ----------

  function MaskOf(l: Lists, i: ItemId): Mask {
    if i in l.items then l.items[i] else {}
  }

  /** `ep_is_linked`: the item's rdllink is on the ready list or on the stolen list. */
  predicate Linked(l: Lists, i: ItemId) {
    i in l.rdl || i in l.tx
  }

  predicate EventsAvailable(l: Lists) {
    l.rdl != [] || l.ovf.Active?
  }

  function LinkTail(l: Lists, i: ItemId): Lists {
    if Linked(l, i) then l else l.(rdl := l.rdl + [i])
  }

  /** The locked part of `ep_poll_callback`. */
  function OnCallback(l: Lists, i: ItemId, key: Mask): Lists {
    if Matches(MaskOf(l, i), key) then Enlist(l, i) else l
  }

  /** The overflow chain takes the item during a scan, the ready list otherwise. */
  function Enlist(l: Lists, i: ItemId): Lists {
    if l.ovf.Inactive? then LinkTail(l, i)
    else if i in l.ovf.chain then l
    else l.(ovf := Active([i] + l.ovf.chain))
  }

  function Steal(l: Lists): Lists {
    l.(rdl := [], tx := l.rdl, ovf := Active([]))
  }

  /** One iteration of `ep_send_events_proc`; `ready` is what the file reports now. */
  function PollHead(l: Lists, ready: Mask, fault: bool): Lists
    requires l.tx != []
  {
    var i := l.tx[0];
    var mask := MaskOf(l, i);
    if ready * mask == {} then l.(tx := l.tx[1..])
    else if fault then l
    else if OneShot in mask then l.(tx := l.tx[1..], items := l.items[i := mask * PRIVATE_BITS])
    else if EdgeTriggered in mask then l.(tx := l.tx[1..])
    else l.(tx := l.tx[1..], rdl := l.rdl + [i])
  }

  /** The tail of `ep_scan_ready_list`: overflow items go to the tail, leftovers to the head. */
  function Requeue(l: Lists): Lists
    requires l.ovf.Active?
  {
    var linked := Elems(l.rdl) + Elems(l.tx);
    l.(rdl := l.tx + (l.rdl + Without(l.ovf.chain, linked)), tx := [], ovf := Inactive)
  }

  /** `ep_insert` and `ep_modify` put an item that is ready at once on the ready list. */
  function LinkReady(l: Lists, i: ItemId, ready: Mask): Lists {
    if ReadyUnlinked(l, i, ready) then LinkTail(l, i) else l
  }

  predicate ReadyUnlinked(l: Lists, i: ItemId, ready: Mask) {
    ready * MaskOf(l, i) != {} && !Linked(l, i)
  }

  /** `epoll_ctl` adds the two events that are always reported. */
  function SetMask(l: Lists, i: ItemId, events: Mask): Lists {
    l.(items := l.items[i := events + {PollErr, PollHup}])
  }

  function Drop(l: Lists, i: ItemId): Lists {
    l.(items := l.items - {i}, tree := l.tree - {i}, links := l.links - {i},
       rdl := Without(l.rdl, {i}))
  }

  // ---------- the waiter side ----------

  datatype Option<T> = None | Some(value: T)

  /** The first queued thread that is asleep. */
  function FirstAsleep(threads: map<Tid, Thread>, wq: seq<Tid>): (r: Option<Tid>)
    ensures r.Some? ==> r.value in wq && r.value in threads && threads[r.value].Asleep?
    ensures r.None? ==> forall t :: t in wq && t in threads ==> !threads[t].Asleep?
  {
    if wq == [] then None
    else if wq[0] in threads && threads[wq[0]].Asleep? then Some(wq[0])
    else FirstAsleep(threads, wq[1..])
  }

  /** `wake_up_locked` on a queue of exclusive waiters: wakes the first one that sleeps. */
  function WakeOne(w: Waiters): Waiters {
    match FirstAsleep(w.threads, w.wq)
    case None => w
    case Some(t) => w.(threads := w.threads[t := Awake(w.threads[t].max, false)])
  }

  function Leave(w: Waiters, t: Tid): Waiters {
    Waiters(w.threads - {t}, Without(w.wq, {t}))
  }

  function Commit(w: Waiters, t: Tid, max: nat, timedOut: bool): Waiters {
    Waiters(w.threads[t := Committed(max, timedOut)], Without(w.wq, {t}))
  }

  // ---------- steps ----------

  datatype Action =
    | Callback(item: ItemId, key: Mask)
    | EnterWait(tid: Tid, max: nat)
    | PollNow(tid: Tid, max: nat)
    | Fetch(tid: Tid, signal: bool)
    | Timeout(tid: Tid)
    | Interrupt(tid: Tid)
    | Recheck(tid: Tid, signal: bool)
    | BeginScan(tid: Tid)
    | ScanItem(ready: Mask, fault: bool)
    | EndScan
    | InsertBegin(item: ItemId, events: Mask)
    | InsertTree
    | InsertFail
    | InsertEnd(ready: Mask)
    | Modify(item: ItemId, events: Mask, ready: Mask)
    | Remove(item: ItemId)

  /** The scanning thread, and the loop condition of `ep_send_events_proc`. */
  predicate ScanHeld(s: State) {
    && s.mtx.Scan? && s.l.ovf.Active?
    && s.mtx.tid in s.w.threads && s.w.threads[s.mtx.tid].Scanning?
  }

  predicate ScanGoesOn(s: State)
    requires ScanHeld(s)
  {
    s.l.tx != [] && !s.mtx.faulted && |s.mtx.sent| < s.w.threads[s.mtx.tid].max
  }

  predicate Enabled(s: State, a: Action) {
    var th := s.w.threads;
    match a
    case Callback(i, _) => i in s.l.items
    case EnterWait(t, max) => t !in th && max > 0
    case PollNow(t, max) => t !in th && max > 0
    case Fetch(t, _) => t in th && th[t].Fetching?
    case Timeout(t) => t in th && (th[t].Asleep? || th[t].Awake?)
    case Interrupt(t) => t in th && th[t].Asleep?
    case Recheck(t, _) => t in th && th[t].Awake?
    case BeginScan(t) => s.mtx.Free? && t in th && th[t].Committed?
    case ScanItem(ready, _) => ScanHeld(s) && ScanGoesOn(s) && ready !! PRIVATE_BITS
    case EndScan => ScanHeld(s) && !ScanGoesOn(s)
    case InsertBegin(i, _) => s.mtx.Free? && i !in s.l.items
    case InsertTree => s.mtx.Ctl? && !s.mtx.inTree
    case InsertFail => s.mtx.Ctl?
    case InsertEnd(ready) => s.mtx.Ctl? && s.mtx.inTree && ready !! PRIVATE_BITS
    case Modify(i, _, ready) =>
      s.mtx.Free? && i in s.l.items && Exclusive !in s.l.items[i] && ready !! PRIVATE_BITS
    case Remove(i) => s.mtx.Free? && i in s.l.items
  }

  /** What the step does to the items and their lists. */
  function NextLists(s: State, a: Action): Lists
    requires Enabled(s, a)
  {
    match a
    case Callback(i, key) => OnCallback(s.l, i, key)
    case BeginScan(_) => Steal(s.l)
    case ScanItem(ready, fault) => PollHead(s.l, ready, fault)
    case EndScan => Requeue(s.l)
    case InsertBegin(i, events) => SetMask(s.l, i, events)
    case InsertTree =>
      s.l.(tree := s.l.tree + {s.mtx.item}, links := s.l.links + {s.mtx.item})
    case InsertFail => Drop(s.l, s.mtx.item)
    case InsertEnd(ready) => LinkReady(s.l, s.mtx.item, ready)
    case Modify(i, events, ready) => LinkReady(SetMask(s.l, i, events), i, ready)
    case Remove(i) => Drop(s.l, i)
    case _ => s.l
  }

  /** Whether the step reaches `wake_up_locked(&ep->wq)`. */
  predicate Wakes(s: State, a: Action)
    requires Enabled(s, a)
  {
    match a
    case Callback(i, key) => Matches(MaskOf(s.l, i), key) && s.l.ovf.Inactive?
    case EndScan => Requeue(s.l).rdl != []
    case InsertEnd(ready) => ReadyUnlinked(s.l, s.mtx.item, ready)
    case Modify(i, events, ready) => ReadyUnlinked(SetMask(s.l, i, events), i, ready)
    case _ => false
  }

  function NextMutex(s: State, a: Action): Mutex
    requires Enabled(s, a)
  {
    match a
    case BeginScan(t) => Scan(t, [], [], false)
    case ScanItem(ready, fault) =>
      var i := s.l.tx[0];
      var hit := ready * MaskOf(s.l, i) != {};
      s.mtx.(polled := s.mtx.polled + [i],
             sent := if hit && !fault then s.mtx.sent + [i] else s.mtx.sent,
             faulted := hit && fault)
    case InsertBegin(i, _) => Ctl(i, false)
    case InsertTree => s.mtx.(inTree := true)
    case EndScan => Free
    case InsertFail => Free
    case InsertEnd(_) => Free
    case _ => s.mtx
  }

  /** The locked check of `ep_poll`'s sleep loop, on the first pass or after a sleep. */
  function Check(w: Waiters, avail: bool, t: Tid, max: nat, timedOut: bool, signal: bool): Waiters {
    if avail then Commit(w, t, max, timedOut)
    else if timedOut || signal then Leave(w, t)
    else w.(threads := w.threads[t := Asleep(max)])
  }

  /** The move of the acting thread, before any wakeup. */
  function Move(s: State, a: Action): Waiters
    requires Enabled(s, a)
  {
    var w, avail := s.w, EventsAvailable(s.l);
    match a
    case EnterWait(t, max) => w.(threads := w.threads[t := Fetching(max)])
    case PollNow(t, max) => if avail then Commit(w, t, max, true) else w
    case Fetch(t, signal) =>
      if avail then Commit(w, t, w.threads[t].max, false)
      else Check(w.(wq := w.wq + [t]), avail, t, w.threads[t].max, false, signal)
    case Timeout(t) => w.(threads := w.threads[t := Awake(w.threads[t].max, true)])
    case Interrupt(t) => w.(threads := w.threads[t := Awake(w.threads[t].max, false)])
    case Recheck(t, signal) => Check(w, avail, t, w.threads[t].max, w.threads[t].timedOut, signal)
    case BeginScan(t) => w.(threads := w.threads[t := Scanning(w.threads[t].max, w.threads[t].timedOut)])
    case EndScan =>
      var t := s.mtx.tid;
      var th := w.threads[t];
      if s.mtx.sent == [] && !s.mtx.faulted && !th.timedOut
      then w.(threads := w.threads[t := Fetching(th.max)])
      else w.(threads := w.threads - {t})
    case _ => w
  }

  function Next(s: State, a: Action): State
    requires Enabled(s, a)
  {
    State(NextLists(s, a),
          if Wakes(s, a) then WakeOne(Move(s, a)) else Move(s, a),
          NextMutex(s, a))
  }

  // ---------- runs ----------

  ghost predicate ValidRun(s: State, acts: seq<Action>)
    decreases |acts|, 0
  {
    acts == [] ||
    (var n := |acts| - 1;
     ValidRun(s, acts[..n]) && Enabled(After(s, acts[..n]), acts[n]))
  }

  ghost function After(s: State, acts: seq<Action>): State
    requires ValidRun(s, acts)
    decreases |acts|, 1
  {
    if acts == [] then s
    else
      var n := |acts| - 1;
      Next(After(s, acts[..n]), acts[n])
  }

  lemma Extend(s: State, acts: seq<Action>, a: Action)
    requires ValidRun(s, acts) && Enabled(After(s, acts), a)
    ensures ValidRun(s, acts + [a]) && After(s, acts + [a]) == Next(After(s, acts), a)
  {
    assert (acts + [a])[..|acts|] == acts;
  }

  lemma {:induction false} Concat(s: State, a: seq<Action>, b: seq<Action>)
    requires ValidRun(s, a) && ValidRun(After(s, a), b)
    ensures ValidRun(s, a + b) && After(s, a + b) == After(After(s, a), b)
  {
    if b == [] {
      assert a + b == a;
    } else {
      var n := |b| - 1;
      Concat(s, a, b[..n]);
      Extend(s, a + b[..n], b[n]);
      SnocConcat(a, b);
    }
  }

  lemma Bracket(s: State, first: Action, acts: seq<Action>, last: Action)
    requires Enabled(s, first) && ValidRun(Next(s, first), acts) && Enabled(After(Next(s, first), acts), last)
    ensures ValidRun(s, [first] + acts + [last])
    ensures After(s, [first] + acts + [last]) == Next(After(Next(s, first), acts), last)
    ensures ValidRun(s, [first] + acts) && After(s, [first] + acts) == After(Next(s, first), acts)
  {
    Extend(s, [], first);
    assert [] + [first] == [first];
    Concat(s, [first], acts);
    Extend(s, [first] + acts, last);
  }
}
