/** What every reachable state of the ready-list protocol satisfies: no lost event, no lost wakeup. */
module EpollSafety {
  import opened Sequences
  import opened EventMasks
  import opened Epoll

  // ---------- the inductive invariant ----------

  /** Shape of the three lists. */
  ghost predicate ListsInv(l: Lists) {
    && NoDup(l.rdl) && NoDup(l.tx) && Disjoint(l.rdl, l.tx)
    && (forall i :: i in l.rdl ==> i in l.items)
    && (forall i :: i in l.tx ==> i in l.items)
    && (l.ovf.Active? ==> NoDup(l.ovf.chain) && forall i :: i in l.ovf.chain ==> i in l.items)
    && (l.ovf.Inactive? ==> l.tx == [])
  }

  /** The mutex guards the scan, the tree and the file links. */
  ghost predicate MutexInv(l: Lists, mtx: Mutex) {
    && (mtx.Scan? <==> l.ovf.Active?)
    && (mtx.Ctl? ==> mtx.item in l.items)
    && l.tree == l.links
    && l.tree == l.items.Keys - (if mtx.Ctl? && !mtx.inTree then {mtx.item} else {})
  }

  predicate OnQueue(th: Thread) {
    th.Asleep? || th.Awake?
  }

  /** The wait queue holds exactly the sleeping and the just woken threads; one thread scans. */
  ghost predicate WaitersInv(w: Waiters, mtx: Mutex) {
    && NoDup(w.wq)
    && (forall t :: t in w.wq <==> t in w.threads && OnQueue(w.threads[t]))
    && (forall t :: t in w.threads && w.threads[t].Scanning? <==> mtx.Scan? && mtx.tid == t)
  }

  /** A thread that will look at the ready list without needing another wakeup. */
  predicate Underway(th: Thread) {
    th.Awake? || th.Committed?
  }

  ghost predicate SomeAsleep(w: Waiters) {
    exists t :: t in w.threads && w.threads[t].Asleep?
  }

  ghost predicate SomeUnderway(w: Waiters) {
    exists t :: t in w.threads && Underway(w.threads[t])
  }

  ghost predicate WakeupInv(s: State) {
    s.l.rdl != [] && !s.mtx.Scan? && SomeAsleep(s.w) ==> SomeUnderway(s.w)
  }

  /** The running scan made at most maxevents deliveries and requeued the level-triggered ones. */
  ghost predicate ScanInv(s: State) {
    s.mtx.Scan? ==>
      && s.mtx.tid in s.w.threads
      && |s.mtx.sent| <= s.w.threads[s.mtx.tid].max
      && |s.mtx.sent| <= |s.mtx.polled|
      && forall i :: i in s.mtx.sent && LevelTriggered(MaskOf(s.l, i)) ==> i in s.l.rdl
  }

  ghost predicate Inv(s: State) {
    && ListsInv(s.l)
    && MutexInv(s.l, s.mtx)
    && WaitersInv(s.w, s.mtx)
    && WakeupInv(s)
    && ScanInv(s)
  }

  // ---------- item-side steps ----------

  lemma LinkTailInv(l: Lists, i: ItemId)
    requires ListsInv(l) && i in l.items
    ensures ListsInv(LinkTail(l, i))
  {
  }

  lemma RequeueInv(l: Lists)
    requires ListsInv(l) && l.ovf.Active?
    ensures ListsInv(Requeue(l))
    ensures forall i :: i in Requeue(l).rdl <==> i in l.rdl || i in l.tx || i in l.ovf.chain
  {
    var linked := Elems(l.rdl) + Elems(l.tx);
    var late := Without(l.ovf.chain, linked);
    WithoutNoDup(l.ovf.chain, linked);
    NoDupConcat(l.rdl, late);
    NoDupConcat(l.tx, l.rdl + late);
  }

  lemma PollHeadInv(l: Lists, ready: Mask, fault: bool)
    requires ListsInv(l) && l.ovf.Active? && l.tx != []
    ensures ListsInv(PollHead(l, ready, fault))
    ensures PollHead(l, ready, fault).items.Keys == l.items.Keys
    ensures l.tx[0] in l.items && l.tx[0] !in l.rdl && l.tx[0] !in l.tx[1..]
  {
    var i := l.tx[0];
    assert i in l.tx;
    assert i !in l.tx[1..];
    assert forall x :: x in l.tx[1..] ==> x in l.tx;
  }

  lemma DropInv(l: Lists, i: ItemId)
    requires ListsInv(l) && l.ovf.Inactive?
    ensures ListsInv(Drop(l, i))
  {
    WithoutNoDup(l.rdl, {i});
  }

  lemma {:induction false} ListsStep(s: State, a: Action)
    requires ListsInv(s.l) && MutexInv(s.l, s.mtx) && Enabled(s, a)
    ensures ListsInv(NextLists(s, a))
    ensures MutexInv(NextLists(s, a), NextMutex(s, a))
  {
    match a
    case Callback(i, key) => LinkTailInv(s.l, i);
    case EndScan => RequeueInv(s.l);
    case ScanItem(ready, fault) => PollHeadInv(s.l, ready, fault);
    case InsertFail => DropInv(s.l, s.mtx.item);
    case InsertEnd(ready) => LinkTailInv(s.l, s.mtx.item);
    case Modify(i, events, _) => LinkTailInv(SetMask(s.l, i, events), i);
    case Remove(i) => DropInv(s.l, i);
    case _ =>
  }

  /** During a scan only the scan itself changes the ready list and the masks. */
  lemma {:induction false} ScanFrame(s: State, a: Action)
    requires MutexInv(s.l, s.mtx) && Enabled(s, a) && s.mtx.Scan? && !a.ScanItem? && !a.EndScan?
    ensures NextMutex(s, a) == s.mtx && NextLists(s, a).rdl == s.l.rdl && NextLists(s, a).tx == s.l.tx
    ensures NextLists(s, a).items == s.l.items
  {
  }

  /** A callback during a scan touches nothing but the overflow chain. */
  lemma {:induction false} CallbackInScan(s: State, i: ItemId, key: Mask)
    requires MutexInv(s.l, s.mtx) && i in s.l.items && s.mtx.Scan?
    ensures var s' := Next(s, Callback(i, key));
      s'.w == s.w && s'.mtx == s.mtx && s'.l == s.l.(ovf := s'.l.ovf)
  {
  }

  lemma {:induction false} ScanStep(s: State, a: Action)
    requires Inv(s) && Enabled(s, a)
    ensures ScanInv(Next(s, a))
  {
    if s.mtx.Scan? && !a.ScanItem? && !a.EndScan? {
      ScanFrame(s, a);
      MaxKept(s, a, s.mtx.tid);
    } else if a.ScanItem? {
      PollHeadInv(s.l, a.ready, a.fault);
    }
  }

  /** A thread keeps its maxevents as long as it stays in `ep_poll`; a scanner stays. */
  lemma {:induction false} MaxKept(s: State, a: Action, t: Tid)
    requires Enabled(s, a) && t in s.w.threads
    ensures t in Next(s, a).w.threads ==> Next(s, a).w.threads[t].max == s.w.threads[t].max
    ensures s.w.threads[t].Scanning? && !a.EndScan? ==> t in Next(s, a).w.threads
  {
  }

  // ---------- waiter-side steps ----------

  lemma WakeOneInv(w: Waiters, mtx: Mutex)
    requires WaitersInv(w, mtx)
    ensures WaitersInv(WakeOne(w), mtx)
    ensures SomeAsleep(w) ==> SomeUnderway(WakeOne(w))
  {
    var r := FirstAsleep(w.threads, w.wq);
    if r.Some? {
      var w' := WakeOne(w);
      assert r.value in w'.threads && Underway(w'.threads[r.value]);
    }
  }

  /** A thread that is not scanning leaves the queue, for a scan or for good. */
  lemma DequeueInv(w: Waiters, mtx: Mutex, t: Tid, max: nat, timedOut: bool)
    requires NoDup(w.wq) && !(mtx.Scan? && mtx.tid == t)
    requires forall u :: u != t ==> (u in w.wq <==> u in w.threads && OnQueue(w.threads[u]))
    requires forall u :: u != t ==> (u in w.threads && w.threads[u].Scanning? <==> mtx.Scan? && mtx.tid == u)
    ensures WaitersInv(Commit(w, t, max, timedOut), mtx)
    ensures WaitersInv(Leave(w, t), mtx)
  {
    WithoutNoDup(w.wq, {t});
  }

  lemma {:induction false} MoveInv(s: State, a: Action)
    requires WaitersInv(s.w, s.mtx) && Enabled(s, a)
    ensures WaitersInv(Move(s, a), NextMutex(s, a))
  {
    match a
    case PollNow(t, max) => DequeueInv(s.w, s.mtx, t, max, true);
    case Fetch(t, _) => FetchInv(s, a);
    case Recheck(t, _) => DequeueInv(s.w, s.mtx, t, s.w.threads[t].max, s.w.threads[t].timedOut);
    case BeginScan(_) => ScanMoveInv(s, a);
    case EndScan => ScanMoveInv(s, a);
    case _ =>
  }

  lemma {:induction false} ScanMoveInv(s: State, a: Action)
    requires WaitersInv(s.w, s.mtx) && Enabled(s, a) && (a.BeginScan? || a.EndScan?)
    ensures WaitersInv(Move(s, a), NextMutex(s, a))
  {
  }

  lemma FetchInv(s: State, a: Action)
    requires WaitersInv(s.w, s.mtx) && Enabled(s, a) && a.Fetch?
    ensures WaitersInv(Move(s, a), s.mtx)
  {
    var w, t, max := s.w, a.tid, s.w.threads[a.tid].max;
    if EventsAvailable(s.l) {
      DequeueInv(w, s.mtx, t, max, false);
    } else if a.signal {
      DequeueInv(w.(wq := w.wq + [t]), s.mtx, t, max, false);
    }
  }

  /** The acting thread falls asleep only if no event is available, and nobody else moves. */
  lemma {:induction false} MoveKeepsUnderway(s: State, a: Action)
    requires WaitersInv(s.w, s.mtx) && Enabled(s, a)
    requires EventsAvailable(s.l) && !a.BeginScan?
    ensures SomeAsleep(Move(s, a)) ==> SomeAsleep(s.w)
    ensures SomeUnderway(s.w) ==> SomeUnderway(Move(s, a))
  {
    var w, w' := s.w, Move(s, a);
    if SomeAsleep(w') {
      var z :| z in w'.threads && w'.threads[z].Asleep?;
      assert z in w.threads && w.threads[z].Asleep?;
    }
    if SomeUnderway(w) {
      var u :| u in w.threads && Underway(w.threads[u]);
      assert u in w'.threads && Underway(w'.threads[u]);
    }
  }

  /** The ready list grows from empty only in a step that wakes. */
  lemma {:induction false} GrowthWakes(s: State, a: Action)
    requires ListsInv(s.l) && MutexInv(s.l, s.mtx) && Enabled(s, a)
    requires NextLists(s, a).rdl != [] && !NextMutex(s, a).Scan?
    ensures Wakes(s, a) || (s.l.rdl != [] && !s.mtx.Scan? && !a.BeginScan?)
  {
  }

  lemma {:induction false} WakeupStep(s: State, a: Action)
    requires Inv(s) && Enabled(s, a)
    ensures WakeupInv(Next(s, a))
  {
    MoveInv(s, a);
    WakeOneInv(Move(s, a), NextMutex(s, a));
    var s' := Next(s, a);
    if s'.l.rdl != [] && !s'.mtx.Scan? {
      GrowthWakes(s, a);
      if Wakes(s, a) {
        WakeLeavesAwake(Move(s, a));
      } else {
        MoveKeepsUnderway(s, a);
      }
    }
  }

  lemma WakeLeavesAwake(w: Waiters)
    ensures SomeAsleep(WakeOne(w)) ==> SomeAsleep(w)
  {
    if SomeAsleep(WakeOne(w)) {
      var z :| z in WakeOne(w).threads && WakeOne(w).threads[z].Asleep?;
      assert z in w.threads && w.threads[z].Asleep?;
    }
  }

  // ---------- theorems over runs ----------

  lemma {:induction false} StepKeepsInv(s: State, a: Action)
    requires Inv(s) && Enabled(s, a)
    ensures Inv(Next(s, a))
  {
    ListsStep(s, a);
    MoveInv(s, a);
    WakeOneInv(Move(s, a), NextMutex(s, a));
    WakeupStep(s, a);
    ScanStep(s, a);
  }

  lemma {:induction false} RunKeepsInv(s: State, acts: seq<Action>)
    requires Inv(s) && ValidRun(s, acts)
    ensures Inv(After(s, acts))
  {
    if acts != [] {
      var n := |acts| - 1;
      RunKeepsInv(s, acts[..n]);
      StepKeepsInv(After(s, acts[..n]), acts[n]);
    }
  }

  /**
   * No lost wakeup: while the ready list is nonempty, no scan runs and some waiter sleeps,
   * another thread has been woken or has committed itself to a scan.
   */
  lemma {:induction false} NoLostWakeup(acts: seq<Action>, sleeper: Tid)
    requires ValidRun(INIT, acts)
    requires var s := After(INIT, acts);
      s.l.rdl != [] && s.l.ovf.Inactive? && sleeper in s.w.threads && s.w.threads[sleeper].Asleep?
    ensures var w := After(INIT, acts).w;
      exists t :: t in w.threads && t != sleeper && ((t in w.wq && w.threads[t].Awake?) || w.threads[t].Committed?)
  {
    RunKeepsInv(INIT, acts);
    var w := After(INIT, acts).w;
    var t :| t in w.threads && Underway(w.threads[t]);
    assert t != sleeper && (w.threads[t].Awake? ==> t in w.wq);
  }

  /** How a step ends the caller's `ep_poll`, if it does. */
  datatype Exit = Stays | ReturnsCount(n: nat) | ReturnsEintr | ReturnsFault

  function ExitOf(s: State, a: Action): Exit
    requires Enabled(s, a)
  {
    match a
    case PollNow(_, _) => if EventsAvailable(s.l) then Stays else ReturnsCount(0)
    case Fetch(_, signal) => if !EventsAvailable(s.l) && signal then ReturnsEintr else Stays
    case Recheck(t, signal) =>
      if EventsAvailable(s.l) then Stays
      else if s.w.threads[t].timedOut then ReturnsCount(0)
      else if signal then ReturnsEintr else Stays
    case EndScan =>
      if s.mtx.sent != [] then ReturnsCount(|s.mtx.sent|)
      else if s.mtx.faulted then ReturnsFault
      else if s.w.threads[s.mtx.tid].timedOut then ReturnsCount(0)
      else Stays
    case _ => Stays
  }

  function Caller(s: State, a: Action): Option<Tid>
    requires Enabled(s, a)
  {
    match a
    case PollNow(t, _) => Some(t)
    case Fetch(t, _) => Some(t)
    case Recheck(t, _) => Some(t)
    case EndScan => Some(s.mtx.tid)
    case _ => None
  }

  /**
   * Leaving `ep_poll` without a scan, by -EINTR or by an empty timeout, happens only when the
   * same lock hold saw no event; a count never exceeds the caller's maxevents; and the caller
   * leaves the wait queue exactly when it returns or commits itself to a scan.
   */
  lemma {:induction false} ExitsLoseNothing(acts: seq<Action>, a: Action)
    requires ValidRun(INIT, acts) && Enabled(After(INIT, acts), a)
    requires Caller(After(INIT, acts), a).Some?
    ensures var s := After(INIT, acts); var e := ExitOf(s, a); var t := Caller(s, a).value; var w := Next(s, a).w;
      && (e.ReturnsEintr? || (e == ReturnsCount(0) && !a.EndScan?) ==>
            s.l.rdl == [] && !s.mtx.Scan? && Next(s, a).l == s.l)
      && (e.ReturnsCount? && a.EndScan? ==> e.n <= s.w.threads[t].max)
      && (e.Stays? <==> t in w.threads)
      && (t in w.threads && t !in w.wq ==> w.threads[t].Committed? || (a.EndScan? && w.threads[t].Fetching?))
  {
    RunKeepsInv(INIT, acts);
    StepKeepsInv(After(INIT, acts), a);
    var s := After(INIT, acts);
    if a.EndScan? { ScannerLeaves(s); }
  }

  lemma {:induction false} ScannerLeaves(s: State)
    requires WaitersInv(s.w, s.mtx) && Enabled(s, EndScan)
    ensures var t := s.mtx.tid; var th := Next(s, EndScan).w.threads;
      t !in s.w.wq && t !in Next(s, EndScan).w.wq &&
      if ExitOf(s, EndScan).Stays? then t in th && th[t].Fetching? else t !in th
  {
    MoveInv(s, EndScan);
    WakeOneInv(Move(s, EndScan), Free);
  }

  /** Items hit by a matching callback and not re-polled, removed or dropped since. */
  ghost function Unserved(s: State, acts: seq<Action>): set<ItemId>
    requires ValidRun(s, acts)
  {
    if acts == [] then {}
    else
      var n := |acts| - 1;
      Unserved(s, acts[..n]) + RaisedBy(After(s, acts[..n]), acts[n]) - ServedBy(After(s, acts[..n]), acts[n])
  }

  ghost function RaisedBy(s: State, a: Action): set<ItemId> {
    if a.Callback? && Hits(MaskOf(s.l, a.item), a.key) then {a.item} else {}
  }

  /** A poll serves its item unless the copy to user space faults. */
  function ServedBy(s: State, a: Action): set<ItemId>
    requires Enabled(s, a)
  {
    match a
    case ScanItem(ready, fault) =>
      if fault && ready * MaskOf(s.l, s.l.tx[0]) != {} then {} else {s.l.tx[0]}
    case InsertFail => {s.mtx.item}
    case Remove(i) => {i}
    case _ => {}
  }

  ghost predicate Queued(l: Lists, i: ItemId) {
    i in l.rdl || i in l.tx || (l.ovf.Active? && i in l.ovf.chain)
  }

  lemma {:induction false} QueuedStep(s: State, a: Action, i: ItemId)
    requires ListsInv(s.l) && MutexInv(s.l, s.mtx) && Enabled(s, a)
    requires Queued(s.l, i) || i in RaisedBy(s, a)
    requires i !in ServedBy(s, a)
    ensures Queued(NextLists(s, a), i)
  {
    match a
    case Callback(j, key) => MatchesIffHits(MaskOf(s.l, j), key);
    case EndScan => RequeueInv(s.l);
    case ScanItem(ready, fault) => assert s.l.tx == [s.l.tx[0]] + s.l.tx[1..];
    case _ =>
  }

  /** No lost event: an unserved item is on the ready list, the stolen list or the overflow chain. */
  lemma {:induction false} NoLostEvent(acts: seq<Action>, i: ItemId)
    requires ValidRun(INIT, acts) && i in Unserved(INIT, acts)
    ensures Queued(After(INIT, acts).l, i)
  {
    var n := |acts| - 1;
    RunKeepsInv(INIT, acts[..n]);
    if i in Unserved(INIT, acts[..n]) {
      NoLostEvent(acts[..n], i);
    }
    QueuedStep(After(INIT, acts[..n]), acts[n], i);
  }

  /**
   * Over every run the lists are disjoint and duplicate-free, the overflow chain is active exactly
   * while a scan holds the mutex, and a scan can always take another item or end.
   */
  lemma {:induction false} ListsStayWellFormed(acts: seq<Action>)
    requires ValidRun(INIT, acts)
    ensures var s := After(INIT, acts);
      && ListsInv(s.l)
      && (s.l.ovf.Active? <==> s.mtx.Scan?)
      && (s.mtx.Scan? ==> Enabled(s, ScanItem({}, false)) != Enabled(s, EndScan))
  {
    RunKeepsInv(INIT, acts);
  }
}
