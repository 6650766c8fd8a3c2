/**
 * What one callback, one whole scan and one call of epoll_wait amount to, said in terms of bits, of
 * the steps taken and of the caller's timeout.
 */
module EpollOutcomes {
  import opened Sequences
  import opened EventMasks
  import opened Epoll
  import opened EpollSafety
  import opened EpollTriggers

  // ---------- a callback ----------

  /** Thread `wq[k]` is the first sleeper of the queue. */
  predicate FirstSleeper(w: Waiters, k: nat) {
    && k < |w.wq| && w.wq[k] in w.threads && w.threads[w.wq[k]].Asleep?
    && forall j :: 0 <= j < k ==> !(w.wq[j] in w.threads && w.threads[w.wq[j]].Asleep?)
  }

  /** The first sleeper, if any, wakes up, and nothing else happens to the waiters. */
  ghost predicate WakesFirst(w: Waiters, w': Waiters) {
    if exists k: nat :: FirstSleeper(w, k)
    then exists k: nat :: FirstSleeper(w, k) && w' == w.(threads := w.threads[w.wq[k] := Awake(w.threads[w.wq[k]].max, false)])
    else w' == w
  }

  lemma {:induction false} FirstAsleepIsFirst(threads: map<Tid, Thread>, wq: seq<Tid>)
    ensures FirstAsleep(threads, wq).None? ==> forall k: nat :: !FirstSleeper(Waiters(threads, wq), k)
    ensures FirstAsleep(threads, wq).Some? ==>
      exists k: nat :: FirstSleeper(Waiters(threads, wq), k) && wq[k] == FirstAsleep(threads, wq).value
  {
    if wq != [] && !(wq[0] in threads && threads[wq[0]].Asleep?) {
      FirstAsleepIsFirst(threads, wq[1..]);
      if FirstAsleep(threads, wq).Some? {
        var k: nat :| FirstSleeper(Waiters(threads, wq[1..]), k) && wq[1..][k] == FirstAsleep(threads, wq).value;
        assert wq[k + 1] == wq[1..][k] && forall j :: 0 < j < k + 1 ==> wq[j] == wq[1..][j - 1];
        assert FirstSleeper(Waiters(threads, wq), k + 1);
      } else {
        forall k: nat ensures !FirstSleeper(Waiters(threads, wq), k) {
          if k > 0 { assert !FirstSleeper(Waiters(threads, wq[1..]), k - 1); }
        }
      }
    } else if wq != [] {
      assert FirstSleeper(Waiters(threads, wq), 0);
    }
  }

  lemma WakeOneWakesFirst(w: Waiters)
    ensures WakesFirst(w, WakeOne(w))
  {
    FirstAsleepIsFirst(w.threads, w.wq);
  }

  /**
   * A callback that hits the item's mask puts it on the ready list, at the tail, and wakes the first
   * sleeper; during a scan it puts it on the overflow chain, at the head, and wakes nobody. An item
   * already there stays where it is. Any other callback does nothing.
   */
  lemma {:induction false} CallbackEffect(acts: seq<Action>, i: ItemId, key: Mask)
    requires ValidRun(INIT, acts) && i in After(INIT, acts).l.items
    ensures var s := After(INIT, acts); var s' := Next(s, Callback(i, key));
      if !Hits(s.l.items[i], key) then s' == s
      else
        && Queued(s'.l, i) && s'.mtx == s.mtx
        && if s.mtx.Scan? then
             s'.w == s.w && s.l.ovf.Active?
             && s'.l == s.l.(ovf := Active(if i in s.l.ovf.chain then s.l.ovf.chain else [i] + s.l.ovf.chain))
           else
             s'.l == s.l.(rdl := if i in s.l.rdl then s.l.rdl else s.l.rdl + [i]) && WakesFirst(s.w, s'.w)
  {
    RunKeepsInv(INIT, acts);
    var s := After(INIT, acts);
    MatchesIffHits(s.l.items[i], key);
    WakeOneWakesFirst(s.w);
  }

  // ---------- a whole scan ----------

  /** The step polls the head of the stolen list, finds it ready and copies the event out. */
  ghost predicate Hit(s: State, a: Action) {
    a.ScanItem? && s.l.tx != [] && exists b :: b in a.ready && b in MaskOf(s.l, s.l.tx[0])
  }

  lemma HitIs(s: State, a: Action)
    requires a.ScanItem? && s.l.tx != []
    ensures Hit(s, a) <==> a.ready * MaskOf(s.l, s.l.tx[0]) != {}
  {
    if a.ready * MaskOf(s.l, s.l.tx[0]) != {} {
      var b :| b in a.ready * MaskOf(s.l, s.l.tx[0]);
      assert b in a.ready && b in MaskOf(s.l, s.l.tx[0]);
    }
    if Hit(s, a) {
      var b :| b in a.ready && b in MaskOf(s.l, s.l.tx[0]);
      assert b in a.ready * MaskOf(s.l, s.l.tx[0]);
    }
  }

  /** How many events the scan steps of `acts` copied to user space. */
  ghost function Copied(s: State, acts: seq<Action>): nat
    requires ValidRun(s, acts)
  {
    if acts == [] then 0
    else
      var n := |acts| - 1;
      Copied(s, acts[..n]) + (if Hit(After(s, acts[..n]), acts[n]) && !acts[n].fault then 1 else 0)
  }

  /** The last scan step of `acts` faulted. */
  ghost predicate LastFaults(s: State, acts: seq<Action>)
    requires ValidRun(s, acts)
  {
    acts != [] &&
    (var n := |acts| - 1;
     if acts[n].ScanItem? then Hit(After(s, acts[..n]), acts[n]) && acts[n].fault else LastFaults(s, acts[..n]))
  }

  /** How many items the scan steps of `acts` took off the stolen list for good. */
  ghost function Taken(s: State, acts: seq<Action>): nat
    requires ValidRun(s, acts)
  {
    if acts == [] then 0
    else
      var n := |acts| - 1;
      var a := acts[n];
      Taken(s, acts[..n]) + (if a.ScanItem? && !(Hit(After(s, acts[..n]), a) && a.fault) then 1 else 0)
  }

  /** The items delivered whose mask asks neither for one shot nor for edges, in order. */
  ghost function Levels(s: State, acts: seq<Action>): seq<ItemId>
    requires ValidRun(s, acts)
  {
    if acts == [] then []
    else
      var n := |acts| - 1;
      var a, t := acts[n], After(s, acts[..n]);
      var again := Hit(t, a) && !a.fault && OneShot !in MaskOf(t.l, t.l.tx[0]) && EdgeTriggered !in MaskOf(t.l, t.l.tx[0]);
      Levels(s, acts[..n]) + (if again then [t.l.tx[0]] else [])
  }

  /** The items hit by callbacks, the latest first hit first. */
  ghost function Arrived(s: State, acts: seq<Action>): seq<ItemId>
    requires ValidRun(s, acts)
  {
    if acts == [] then []
    else
      var n := |acts| - 1;
      var a, before := acts[n], Arrived(s, acts[..n]);
      if a.Callback? && Hits(MaskOf(After(s, acts[..n]).l, a.item), a.key) && a.item !in before then [a.item] + before
      else before
  }

  /** Where a scan stands that began with the stolen list `stolen`. */
  ghost predicate Scanned(t: State, stolen: seq<ItemId>, taken: nat, levels: seq<ItemId>,
                          arrived: seq<ItemId>, copied: nat, faults: bool)
  {
    && t.mtx.Scan? && taken <= |stolen|
    && t.l.tx == stolen[taken..] && t.l.rdl == levels && t.l.ovf == Active(arrived)
    && |t.mtx.sent| == copied && t.mtx.faulted == faults
  }

  lemma {:induction false} ScanTakes(t: State, a: Action, stolen: seq<ItemId>, taken: nat, levels: seq<ItemId>,
                                     arrived: seq<ItemId>, copied: nat, faults: bool)
    requires Scanned(t, stolen, taken, levels, arrived, copied, faults) && Enabled(t, a) && a.ScanItem?
    ensures var i := t.l.tx[0]; var mask := MaskOf(t.l, i);
      Scanned(Next(t, a), stolen, if Hit(t, a) && a.fault then taken else taken + 1,
              if Hit(t, a) && !a.fault && OneShot !in mask && EdgeTriggered !in mask then levels + [i] else levels,
              arrived, if Hit(t, a) && !a.fault then copied + 1 else copied, Hit(t, a) && a.fault)
  {
    HitIs(t, a);
    assert stolen[taken..][1..] == stolen[taken + 1..];
  }

  lemma {:induction false} ScanWaits(t: State, a: Action, stolen: seq<ItemId>, taken: nat, levels: seq<ItemId>,
                                     arrived: seq<ItemId>, copied: nat, faults: bool)
    requires MutexInv(t.l, t.mtx) && Scanned(t, stolen, taken, levels, arrived, copied, faults)
    requires Enabled(t, a) && !a.ScanItem? && !a.EndScan?
    ensures var hit := a.Callback? && Hits(MaskOf(t.l, a.item), a.key) && a.item !in arrived;
      Scanned(Next(t, a), stolen, taken, levels, if hit then [a.item] + arrived else arrived, copied, faults)
  {
    ScanFrame(t, a);
    if a.Callback? { MatchesIffHits(MaskOf(t.l, a.item), a.key); }
  }

  lemma {:induction false} ScanProgress(s: State, acts: seq<Action>, stolen: seq<ItemId>)
    requires Inv(s) && ValidRun(s, acts) && Scanned(s, stolen, 0, [], [], 0, false)
    requires forall a :: a in acts ==> !a.EndScan?
    ensures Scanned(After(s, acts), stolen, Taken(s, acts), Levels(s, acts), Arrived(s, acts),
                    Copied(s, acts), LastFaults(s, acts))
  {
    if acts != [] {
      var n := |acts| - 1;
      assert acts[n] in acts && forall a :: a in acts[..n] ==> a in acts;
      ScanProgress(s, acts[..n], stolen);
      RunKeepsInv(s, acts[..n]);
      var t := After(s, acts[..n]);
      if acts[n].ScanItem? {
        ScanTakes(t, acts[n], stolen, Taken(s, acts[..n]), Levels(s, acts[..n]), Arrived(s, acts[..n]),
                  Copied(s, acts[..n]), LastFaults(s, acts[..n]));
      } else {
        ScanWaits(t, acts[n], stolen, Taken(s, acts[..n]), Levels(s, acts[..n]), Arrived(s, acts[..n]),
                  Copied(s, acts[..n]), LastFaults(s, acts[..n]));
      }
    }
  }

  /**
   * The net effect of a whole scan, whatever happens meanwhile: the ready list afterwards is what was
   * not taken, then the level-triggered items delivered, then the items that arrived and are not
   * among these. Polled items that were not ready, or were edge-triggered or one-shot, are gone.
   */
  lemma {:induction false} ScanOutcome(s: State, t: Tid, acts: seq<Action>)
    requires Inv(s) && Enabled(s, BeginScan(t)) && ValidRun(Next(s, BeginScan(t)), acts)
    requires forall a :: a in acts ==> !a.EndScan?
    requires Enabled(After(Next(s, BeginScan(t)), acts), EndScan)
    ensures var s1 := Next(s, BeginScan(t)); var s2 := After(s1, acts);
      && Taken(s1, acts) <= |s.l.rdl|
      && Next(s2, EndScan).l.rdl == Merged(s.l.rdl[Taken(s1, acts)..] + Levels(s1, acts), Arrived(s1, acts))
      && Next(s2, EndScan).l.tx == [] && Next(s2, EndScan).l.ovf == Inactive
  {
    var s1 := Next(s, BeginScan(t));
    StepKeepsInv(s, BeginScan(t));
    ScanProgress(s1, acts, s.l.rdl);
    RequeueMerges(After(s1, acts).l, s.l.rdl[Taken(s1, acts)..], Levels(s1, acts), Arrived(s1, acts));
  }

  /** The list `ahead`, followed by the items of `late` that are not on it. */
  function Merged(ahead: seq<ItemId>, late: seq<ItemId>): seq<ItemId> {
    ahead + Without(late, Elems(ahead))
  }

  lemma RequeueMerges(l: Lists, left: seq<ItemId>, levels: seq<ItemId>, late: seq<ItemId>)
    requires l.tx == left && l.rdl == levels && l.ovf == Active(late)
    ensures Requeue(l) == l.(rdl := Merged(left + levels, late), tx := [], ovf := Inactive)
  {
    assert Elems(left + levels) == Elems(levels) + Elems(left);
    assert left + (levels + Without(late, Elems(left + levels))) == left + levels + Without(late, Elems(left + levels));
  }

  /**
   * A scan ends exactly when the stolen list is used up, maxevents events are copied or a copy
   * faulted, and the call then returns the number of events copied, if any; otherwise the fault,
   * exactly if the last scan step faulted; otherwise 0 if its timeout is over, and else it goes on.
   */
  lemma {:induction false} ScanReturns(s: State, t: Tid, acts: seq<Action>)
    requires Inv(s) && Enabled(s, BeginScan(t)) && ValidRun(Next(s, BeginScan(t)), acts)
    requires forall a :: a in acts ==> !a.EndScan?
    ensures var s1 := Next(s, BeginScan(t)); var s2 := After(s1, acts); var max := s.w.threads[t].max;
      && Copied(s1, acts) <= max
      && (Enabled(s2, EndScan) <==> Taken(s1, acts) == |s.l.rdl| || Copied(s1, acts) == max || LastFaults(s1, acts))
      && (Enabled(s2, EndScan) ==>
            ExitOf(s2, EndScan) == if Copied(s1, acts) > 0 then ReturnsCount(Copied(s1, acts))
                                   else if LastFaults(s1, acts) then ReturnsFault
                                   else if s.w.threads[t].timedOut then ReturnsCount(0) else Stays)
  {
    var s1 := Next(s, BeginScan(t));
    StepKeepsInv(s, BeginScan(t));
    ScanProgress(s1, acts, s.l.rdl);
    RunKeepsInv(s1, acts);
    ScannerStays(s1, acts, t);
  }

  /** The end of a scan releases its caller, and wakes the first sleeper exactly if something is left on the ready list. */
  lemma {:induction false} EndScanWakes(s: State)
    requires Inv(s) && Enabled(s, EndScan)
    ensures var t, th, s' := s.mtx.tid, s.w.threads, Next(s, EndScan);
      var w := s.w.(threads := if ExitOf(s, EndScan).Stays? then th[t := Fetching(th[t].max)] else th - {t});
      if s'.l.rdl == [] then s'.w == w else WakesFirst(w, s'.w)
  {
    WakeOneWakesFirst(Move(s, EndScan));
  }

  /** Besides callbacks, ends of scans and armings, a step moves no thread but the one that takes it. */
  lemma {:induction false} OthersStay(s: State, a: Action, u: Tid)
    requires Inv(s) && Enabled(s, a)
    requires a.EnterWait? || a.PollNow? || a.Fetch? || a.Timeout? || a.Interrupt? || a.Recheck? || a.BeginScan? ==> a.tid != u
    requires !a.Callback? && !a.EndScan? && !a.InsertEnd? && !a.Modify?
    ensures u in Next(s, a).w.threads <==> u in s.w.threads
    ensures u in s.w.threads ==> Next(s, a).w.threads[u] == s.w.threads[u]
  {
  }

  lemma {:induction false} ScannerStays(s: State, acts: seq<Action>, t: Tid)
    requires Inv(s) && ValidRun(s, acts) && s.mtx.Scan? && s.mtx.tid == t && (forall a :: a in acts ==> !a.EndScan?)
    ensures var s' := After(s, acts);
      t in s.w.threads && s'.mtx.Scan? && s'.mtx.tid == t && t in s'.w.threads && s'.w.threads[t] == s.w.threads[t]
  {
    if acts != [] {
      var n := |acts| - 1;
      assert acts[n] in acts && forall a :: a in acts[..n] ==> a in acts;
      ScannerStays(s, acts[..n], t);
      RunKeepsInv(s, acts[..n]);
      ScannerStep(After(s, acts[..n]), acts[n]);
    }
  }

  lemma {:induction false} ScannerStep(s: State, a: Action)
    requires WaitersInv(s.w, s.mtx) && s.mtx.Scan? && Enabled(s, a) && !a.EndScan?
    ensures NextMutex(s, a).Scan? && NextMutex(s, a).tid == s.mtx.tid
    ensures s.mtx.tid in Next(s, a).w.threads && Next(s, a).w.threads[s.mtx.tid] == s.w.threads[s.mtx.tid]
  {
  }

  // ---------- masks ----------

  /** An arming asks for the events given and always for errors and hang-ups. */
  lemma ArmingSetsMask(s: State, a: Action, i: ItemId)
    requires Enabled(s, a) && Arms(a, i)
    ensures i in NextLists(s, a).items
    ensures forall b :: b in NextLists(s, a).items[i] <==> b in a.events || b == PollErr || b == PollHup
  {
  }

  lemma {:induction false} MaskStep(s: State, a: Action, i: ItemId)
    requires ListsInv(s.l) && Enabled(s, a) && !Arms(a, i) && i in NextLists(s, a).items
    ensures i in s.l.items
    ensures var mask := s.l.items[i];
      NextLists(s, a).items[i] ==
        if Delivers(s, a, i) && OneShot in mask then mask * {OneShot, EdgeTriggered, WakeUp, Exclusive} else mask
  {
    if a.ScanItem? { assert s.l.tx[0] in s.l.tx; }
  }

  /** Until the next arming the mask changes only when a one-shot item is delivered, which leaves its configuration bits. */
  lemma {:induction false} MaskSinceArming(s: State, acts: seq<Action>, i: ItemId)
    requires Inv(s) && ValidRun(s, acts) && (forall k :: 0 <= k < |acts| ==> !Arms(acts[k], i))
    requires i in After(s, acts).l.items
    ensures i in s.l.items
    ensures var mask := s.l.items[i];
      After(s, acts).l.items[i] ==
        if OneShot in mask && Deliveries(s, acts, i) > 0 then mask * {OneShot, EdgeTriggered, WakeUp, Exclusive} else mask
  {
    if acts != [] {
      var n := |acts| - 1;
      RunKeepsInv(s, acts[..n]);
      assert !Arms(acts[n], i);
      MaskStep(After(s, acts[..n]), acts[n], i);
      MaskSinceArming(s, acts[..n], i);
    }
  }

  /** The end of an insert lists the item exactly if it is ready for an event it asks for and not listed yet, and then wakes. */
  lemma {:induction false} InsertEndEffect(s: State, ready: Mask)
    requires Inv(s) && Enabled(s, InsertEnd(ready))
    ensures s.mtx.item in s.l.items
    ensures var i := s.mtx.item; var s' := Next(s, InsertEnd(ready));
      if (exists b :: b in ready && b in s.l.items[i]) && i !in s.l.rdl
      then s'.l == s.l.(rdl := s.l.rdl + [i]) && WakesFirst(s.w, s'.w)
      else s'.l == s.l && s'.w == s.w
  {
    var mask := s.l.items[s.mtx.item];
    if ready * mask != {} {
      var b :| b in ready * mask;
      assert b in ready && b in mask;
    }
    if b :| b in ready && b in mask { assert b in ready * mask; }
    WakeOneWakesFirst(s.w);
  }

  /** A change of the mask keeps the item where it is, or lists it if it is ready for what it now asks, and then wakes. */
  lemma {:induction false} ModifyEffect(s: State, i: ItemId, events: Mask, ready: Mask)
    requires Inv(s) && Enabled(s, Modify(i, events, ready))
    ensures var s' := Next(s, Modify(i, events, ready)); var mask := events + {PollErr, PollHup};
      && s'.l.items == s.l.items[i := mask] && s'.l.tree == s.l.tree && s'.l.links == s.l.links && s'.mtx == s.mtx
      && if ready * mask != {} && i !in s.l.rdl then s'.l.rdl == s.l.rdl + [i] && WakesFirst(s.w, s'.w)
         else s'.l.rdl == s.l.rdl && s'.w == s.w
  {
    WakeOneWakesFirst(s.w);
  }

  /** A removed item is on no list and in no index, and the others stay as they are. */
  lemma {:induction false} RemoveEffect(s: State, i: ItemId)
    requires Inv(s) && Enabled(s, Remove(i))
    ensures var s' := Next(s, Remove(i));
      && s'.l.items == s.l.items - {i} && s'.l.tree == s.l.tree - {i} && s'.l.links == s.l.links - {i}
      && !Queued(s'.l, i) && s'.l.rdl == Without(s.l.rdl, {i}) && s'.w == s.w && s'.mtx == s.mtx
  {
  }

  // ---------- a caller of epoll_wait ----------

  /** The timeout of the caller is over, whether it fired or was zero. */
  predicate TimeIsUp(th: Thread) {
    (th.Awake? || th.Committed? || th.Scanning?) && th.timedOut
  }

  /**
   * What the locked checks of `ep_poll` do with their caller: it goes on to scan exactly if an event is
   * available, else returns 0 if its time is up, else -EINTR if a signal is pending, else sleeps.
   */
  lemma {:induction false} CheckEffect(s: State, a: Action, t: Tid)
    requires Inv(s) && Enabled(s, a) && (a.PollNow? || a.Fetch? || a.Recheck?) && a.tid == t
    ensures var available := s.l.rdl != [] || s.mtx.Scan?;
      var up := a.PollNow? || (a.Recheck? && s.w.threads[t].timedOut); var w := Next(s, a).w;
      var max := if a.PollNow? then a.max else s.w.threads[t].max;
      if available then t in w.threads && w.threads[t] == Committed(max, up) && t !in w.wq && ExitOf(s, a) == Stays
      else if up then t !in w.threads && t !in w.wq && ExitOf(s, a) == ReturnsCount(0)
      else if a.signal then t !in w.threads && t !in w.wq && ExitOf(s, a) == ReturnsEintr
      else t in w.threads && w.threads[t] == Asleep(max) && t in w.wq && ExitOf(s, a) == Stays
  {
    StepKeepsInv(s, a);
  }

  /** A new waiter goes to the tail of the wait queue; the others keep their places. */
  lemma {:induction false} QueueOrder(s: State, a: Action, t: Tid)
    requires Inv(s) && Enabled(s, a)
    ensures var wq := Next(s, a).w.wq;
      wq == s.w.wq || (a.Fetch? && wq == s.w.wq + [a.tid]) || (a.Recheck? && wq == Without(s.w.wq, {a.tid}))
  {
    if a.Fetch? {
      WithoutNothing(s.w.wq, {a.tid});
      WithoutConcat(s.w.wq, [a.tid], {a.tid});
      assert Without([a.tid], {a.tid}) == [];
    }
    if a.PollNow? { WithoutNothing(s.w.wq, {a.tid}); }
  }

  lemma {:induction false} TimeStep(s: State, a: Action, t: Tid)
    requires Inv(s) && Enabled(s, a) && t in Next(s, a).w.threads
    ensures TimeIsUp(Next(s, a).w.threads[t]) <==>
      (t in s.w.threads && TimeIsUp(s.w.threads[t])) || (a.Timeout? && a.tid == t) || (a.PollNow? && a.tid == t)
  {
    if t in s.w.threads && s.mtx.Scan? && s.mtx.tid == t && a.EndScan? { ScannerLeaves(s); }
  }

  /** The thread entered ep_poll without waiting, or its timer fired, since it last entered. */
  ghost predicate TimeRanOut(acts: seq<Action>, t: Tid) {
    acts != [] &&
    (var a := acts[|acts| - 1];
     if a.EnterWait? && a.tid == t then false
     else (a.PollNow? && a.tid == t) || (a.Timeout? && a.tid == t) || TimeRanOut(acts[..|acts| - 1], t))
  }

  /**
   * Over every run a caller inside `ep_poll` has its time up exactly if it asked not to wait or its
   * timer fired, so it never sleeps, and never goes back to wait, after that.
   */
  lemma {:induction false} TimeIsUpIff(acts: seq<Action>, t: Tid)
    requires ValidRun(INIT, acts) && t in After(INIT, acts).w.threads
    ensures TimeIsUp(After(INIT, acts).w.threads[t]) <==> TimeRanOut(acts, t)
  {
    var n := |acts| - 1;
    RunKeepsInv(INIT, acts[..n]);
    var s, a := After(INIT, acts[..n]), acts[n];
    TimeStep(s, a, t);
    if t in s.w.threads {
      TimeIsUpIff(acts[..n], t);
    } else {
      NewThread(s, a, t);
    }
  }

  lemma {:induction false} NewThread(s: State, a: Action, t: Tid)
    requires Enabled(s, a) && t !in s.w.threads && t in Next(s, a).w.threads
    ensures (a.EnterWait? || a.PollNow?) && a.tid == t
  {
  }
}
