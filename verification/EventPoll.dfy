/**
 * `struct eventpoll` with its intrusive lists: the overflow chain is threaded through the items'
 * `next` pointers. Every method is one critical section of eventpoll.c and is proved to take the
 * corresponding step of the protocol; `ScanReadyList` runs a whole scan against interference.
 */
module EventPollImpl {
  import opened Sequences
  import opened EventMasks
  import opened Epoll
  import opened EpollSafety
  import opened EpollOutcomes

  /** A pointer to an item, NULL, or EP_UNACTIVE_PTR. */
  datatype Link = Unactive | Null | To(item: ItemId)

  const EFAULT: int := 14

  /** Following `next` from `p` visits exactly the items of `c`, in order, and ends in NULL. */
  ghost predicate ChainFrom(p: Link, next: map<ItemId, Link>, c: seq<ItemId>)
    decreases c
  {
    if c == [] then p == Null
    else p == To(c[0]) && c[0] in next && ChainFrom(next[c[0]], next, c[1..])
  }

  /** The chain is determined by the pointers. */
  lemma {:induction false} ChainUnique(p: Link, next: map<ItemId, Link>, c: seq<ItemId>, d: seq<ItemId>)
    requires ChainFrom(p, next, c) && ChainFrom(p, next, d)
    ensures c == d
    decreases c
  {
    if c != [] && d != [] {
      ChainUnique(next[c[0]], next, c[1..], d[1..]);
    }
  }

  /** Writing the `next` of an item off the chain leaves the chain alone. */
  lemma {:induction false} ChainFrame(p: Link, next: map<ItemId, Link>, c: seq<ItemId>, i: ItemId, q: Link)
    requires ChainFrom(p, next, c) && i !in c
    ensures ChainFrom(p, next[i := q], c)
    decreases c
  {
    if c != [] {
      ChainFrame(next[c[0]], next, c[1..], i, q);
    }
  }

  /** The chain from `p` is `c`, without cycles, and no other item is chained. */
  ghost predicate ChainIs(p: Link, next: map<ItemId, Link>, c: seq<ItemId>) {
    && ChainFrom(p, next, c)
    && NoDup(c)
    && (forall i :: i in next ==> (next[i] != Unactive <==> i in c))
  }

  lemma ChainPush(p: Link, next: map<ItemId, Link>, c: seq<ItemId>, i: ItemId)
    requires ChainIs(p, next, c) && p != Unactive && i in next && i !in c
    ensures ChainIs(To(i), next[i := p], [i] + c)
  {
    ChainFrame(p, next, c, i, p);
    assert ([i] + c)[1..] == c;
  }

  lemma ChainPop(p: Link, next: map<ItemId, Link>, c: seq<ItemId>, k: nat)
    requires k <= |c| && ChainIs(p, next, c[k..]) && p.To?
    ensures k < |c| && c[k] == p.item && p.item in next
    ensures ChainIs(next[p.item], next[p.item := Unactive], c[k + 1..])
  {
    assert c[k..] == [c[k]] + c[k + 1..] && c[k..][1..] == c[k + 1..];
    assert c[k] !in c[k + 1..];
    ChainFrame(next[c[k]], next, c[k + 1..], c[k], Unactive);
  }

  /** The ready list after the first `k` chained items have been requeued. */
  ghost function Drained(rdl: seq<ItemId>, c: seq<ItemId>, k: nat, linked: set<ItemId>): seq<ItemId>
    requires k <= |c|
  {
    rdl + Without(c[..k], linked)
  }

  lemma DrainOne(rdl: seq<ItemId>, tx: seq<ItemId>, c: seq<ItemId>, k: nat, linked: set<ItemId>)
    requires k < |c| && NoDup(c) && linked == Elems(rdl) + Elems(tx)
    ensures Drained(rdl, c, k + 1, linked) ==
      if c[k] in Drained(rdl, c, k, linked) || c[k] in tx then Drained(rdl, c, k, linked)
      else Drained(rdl, c, k, linked) + [c[k]]
  {
    assert c[..k + 1] == c[..k] + [c[k]] && c[k] !in c[..k];
    WithoutConcat(c[..k], [c[k]], linked);
    assert Without([c[k]], linked) == if c[k] in linked then [] else [c[k]];
  }

  /** Between two iterations of the scan loop: callbacks that fire, then what the next file reports. */
  datatype Round = Round(callbacks: seq<(ItemId, Mask)>, ready: Mask, fault: bool)

  /**
   * The requeueing loop of `ep_scan_ready_list`: follows the overflow chain by its pointers, newest
   * item first, links every item that is not linked yet and resets every `next`.
   */
  method DrainChain(head: Link, next: map<ItemId, Link>, rdl: seq<ItemId>, tx: seq<ItemId>, ghost c: seq<ItemId>)
    returns (next': map<ItemId, Link>, rdl': seq<ItemId>)
    requires ChainIs(head, next, c)
    ensures next'.Keys == next.Keys && forall i :: i in next' ==> next'[i] == Unactive
    ensures rdl' == rdl + Without(c, Elems(rdl) + Elems(tx))
  {
    ghost var linked := Elems(rdl) + Elems(tx);
    ghost var k := 0;
    var nepi := head;
    next', rdl' := next, rdl;
    assert c[0..] == c && Drained(rdl, c, 0, linked) == rdl;
    while nepi != Null
      invariant k <= |c| && ChainIs(nepi, next', c[k..])
      invariant next'.Keys == next.Keys
      invariant rdl' == Drained(rdl, c, k, linked)
      decreases |c| - k
    {
      ChainPop(nepi, next', c, k);
      DrainOne(rdl, tx, c, k, linked);
      var epi := nepi.item;
      if epi !in rdl' && epi !in tx {
        rdl' := rdl' + [epi];
      }
      nepi := next'[epi];
      next' := next'[epi := Unactive];
      k := k + 1;
    }
    assert c[k..] == [] && c[..k] == c;
    assert ChainIs(Null, next', []);
    assert rdl' == rdl + Without(c, linked);
  }

  /** An exclusive item absorbs a wakeup for one direction, if it wants it, or for none. */
  predicate TakesAll(mask: Mask, io: Mask) {
    io <= mask && io != {PollIn, PollOut}
  }

  function Absorbed(mask: Mask, key: Mask, wq: seq<Tid>): int {
    if wq != [] && Exclusive in mask && PollFree !in key && TakesAll(mask, key * {PollIn, PollOut}) then 1 else 0
  }

  /**
   * What `ep_poll_callback` tells the wait queue of the file: 1 lets an exclusive wakeup stop here.
   * An exclusive item takes the wakeup only if a waiter of its own may be woken for it.
   */
  function CallbackResult(s: State, i: ItemId, key: Mask): int
    requires i in s.l.items
  {
    var mask := s.l.items[i];
    if Exclusive !in mask then 1
    else if Matches(mask, key) && s.l.ovf.Inactive? then Absorbed(mask, key, s.w.wq)
    else 0
  }

  /**
   * An exclusive item lets the wakeup of its file go on, by returning 0, unless the callback hits it
   * outside a scan, somebody waits, the wait queue is not being freed, and the key names at most one
   * direction and only one that the item asks for. Every other item returns 1.
   */
  lemma CallbackResultIff(s: State, i: ItemId, key: Mask)
    requires i in s.l.items
    ensures var mask := s.l.items[i];
      CallbackResult(s, i, key) ==
        if Exclusive in mask &&
           !(Hits(mask, key) && s.l.ovf.Inactive? && s.w.wq != [] && PollFree !in key &&
             !(PollIn in key && PollOut in key) && (PollIn in key ==> PollIn in mask) && (PollOut in key ==> PollOut in mask))
        then 0 else 1
  {
    var mask, io := s.l.items[i], key * {PollIn, PollOut};
    MatchesIffHits(mask, key);
    assert io != {PollIn, PollOut} <==> !(PollIn in key && PollOut in key) by {
      if PollIn in key && PollOut in key { assert io == {PollIn, PollOut}; }
      if io == {PollIn, PollOut} { assert PollIn in io && PollOut in io; }
    }
    assert io <= mask <==> (PollIn in key ==> PollIn in mask) && (PollOut in key ==> PollOut in mask) by {
      if io <= mask {
        assert PollIn in key ==> PollIn in io;
        assert PollOut in key ==> PollOut in io;
      }
    }
  }

  /** The step of a callback, written out. */
  function AfterCallback(s: State, i: ItemId, key: Mask): State {
    var wakes := Matches(MaskOf(s.l, i), key) && s.l.ovf.Inactive?;
    s.(l := OnCallback(s.l, i, key), w := if wakes then WakeOne(s.w) else s.w)
  }

  lemma CallbackStep(s: State, i: ItemId, key: Mask)
    requires i in s.l.items
    ensures Next(s, Callback(i, key)) == AfterCallback(s, i, key)
  {
  }

  /** The scanning thread goes back to fetch_events if it delivered nothing and has time left. */
  function Released(w: Waiters, mtx: Mutex): Waiters
    requires mtx.Scan? && mtx.tid in w.threads && w.threads[mtx.tid].Scanning?
  {
    var th := w.threads[mtx.tid];
    w.(threads := if mtx.sent == [] && !mtx.faulted && !th.timedOut then w.threads[mtx.tid := Fetching(th.max)]
                  else w.threads - {mtx.tid})
  }

  /** The step that ends a scan, written out. */
  function AfterScan(s: State): State
    requires ScanHeld(s)
  {
    var w, l := Released(s.w, s.mtx), Requeue(s.l);
    State(l, if l.rdl != [] then WakeOne(w) else w, Free)
  }

  lemma EndScanStep(s: State)
    requires Enabled(s, EndScan)
    ensures Next(s, EndScan) == AfterScan(s)
  {
  }

  /** What `ep_scan_ready_list` returns: the number of events delivered, or the fault if none was. */
  function ScanResult(mtx: Mutex): int
    requires mtx.Scan?
  {
    if mtx.sent != [] then |mtx.sent| else if mtx.faulted then -EFAULT else 0
  }

  /** The result of a scan, from what its steps copied. */
  ghost function Outcome(s: State, acts: seq<Action>): int
    requires ValidRun(s, acts)
  {
    if Copied(s, acts) > 0 then Copied(s, acts) else if LastFaults(s, acts) then -EFAULT else 0
  }

  lemma {:induction false} ScanResultIs(s: State, t: Tid, acts: seq<Action>)
    requires Inv(s) && Enabled(s, BeginScan(t)) && ValidRun(Next(s, BeginScan(t)), acts)
    requires forall a :: a in acts ==> !a.EndScan?
    ensures After(Next(s, BeginScan(t)), acts).mtx.Scan?
    ensures ScanResult(After(Next(s, BeginScan(t)), acts).mtx) == Outcome(Next(s, BeginScan(t)), acts) <= s.w.threads[t].max
  {
    StepKeepsInv(s, BeginScan(t));
    ScanProgress(Next(s, BeginScan(t)), acts, s.l.rdl);
    ScanReturns(s, t, acts);
  }

  /** The callbacks of a round run during a scan; those for unknown items hit nothing. */
  ghost function Interfered(s: State, callbacks: seq<(ItemId, Mask)>): (s': State)
    requires Inv(s) && s.mtx.Scan?
    ensures Inv(s') && s' == s.(l := s.l.(ovf := s'.l.ovf))
  {
    if callbacks == [] then s
    else
      var s1 := Interfered(s, callbacks[..|callbacks| - 1]);
      var (epi, key) := callbacks[|callbacks| - 1];
      if epi in s1.l.items then
        CallbackInScan(s1, epi, key);
        StepKeepsInv(s1, Callback(epi, key));
        Next(s1, Callback(epi, key))
      else s1
  }

  ghost predicate GoesOn(s: State) {
    s.mtx.Scan? && Enabled(s, ScanItem({}, false))
  }

  /** One pass of the scan loop: the callbacks before it, then the poll of the first stolen item. */
  ghost function Rounded(s: State, round: Round): (s': State)
    requires Inv(s) && GoesOn(s) && round.ready !! PRIVATE_BITS
    ensures Inv(s') && s'.mtx.Scan? && (s'.mtx.faulted || |s'.l.tx| < |s.l.tx|)
  {
    var s1 := Interfered(s, round.callbacks);
    StepKeepsInv(s1, ScanItem(round.ready, round.fault));
    Next(s1, ScanItem(round.ready, round.fault))
  }

  function RoundAt(rounds: seq<Round>, n: nat): Round {
    if n < |rounds| then rounds[n] else Round([], {}, false)
  }

  ghost predicate Reportable(rounds: seq<Round>) {
    forall k :: 0 <= k < |rounds| ==> rounds[k].ready !! PRIVATE_BITS
  }

  /** The scan loop from pass `n` on: it stops when the list is used up, maxevents are delivered or a copy faults. */
  ghost function Swept(s: State, rounds: seq<Round>, n: nat): (s': State)
    requires Inv(s) && s.mtx.Scan? && Reportable(rounds)
    ensures s'.mtx.Scan? && !GoesOn(s')
    decreases if s.mtx.faulted then 0 else 1 + |s.l.tx|
  {
    if GoesOn(s) then Swept(Rounded(s, RoundAt(rounds, n)), rounds, n + 1) else s
  }

  /** The scan loop began at `s`, has taken `trace` in `n` passes and is at `t`. */
  ghost predicate Sweeping(s: State, rounds: seq<Round>, n: nat, trace: seq<Action>, t: State) {
    && Inv(s) && s.mtx.Scan? && Inv(t) && t.mtx.Scan? && Reportable(rounds)
    && ValidRun(s, trace) && t == After(s, trace) && (forall a :: a in trace ==> a.Callback? || a.ScanItem?)
    && Swept(t, rounds, n) == Swept(s, rounds, 0)
  }

  lemma {:induction false} SweepsOnce(s: State, rounds: seq<Round>, n: nat, trace: seq<Action>, t: State, pass: seq<Action>)
    requires Sweeping(s, rounds, n, trace, t) && GoesOn(t)
    requires ValidRun(t, pass) && After(t, pass) == Rounded(t, RoundAt(rounds, n))
    requires forall a :: a in pass ==> a.Callback? || a.ScanItem?
    ensures Sweeping(s, rounds, n + 1, trace + pass, After(t, pass))
  {
    Concat(s, trace, pass);
  }

  class EventPoll {
    var events: map<ItemId, Mask>
    var tree: set<ItemId>
    var links: set<ItemId>
    var rdllist: seq<ItemId>
    var txlist: seq<ItemId>
    var ovflist: Link
    var next: map<ItemId, Link>
    var threads: map<Tid, Thread>
    var wq: seq<Tid>
    var mtx: Mutex
    ghost var chain: seq<ItemId>

    ghost function View(): State
      reads this
    {
      State(Lists(events, tree, links, rdllist, txlist, if ovflist.Unactive? then Inactive else Active(chain)),
            Waiters(threads, wq), mtx)
    }

    /**
     * The pointer invariant: `next` is not EP_UNACTIVE_PTR exactly for the items on the chain
     * that starts at `ovflist`, which has no cycle; outside a scan every `next` is reset.
     */
    ghost predicate PointersOk()
      reads this
    {
      && next.Keys == events.Keys
      && (if ovflist == Unactive then forall i :: i in next ==> next[i] == Unactive
          else ChainIs(ovflist, next, chain))
    }

    ghost predicate Valid()
      reads this
    {
      PointersOk() && Inv(View())
    }

    /** `ep_alloc`. */
    constructor ()
      ensures Valid() && View() == INIT
    {
      events, tree, links, rdllist, txlist := map[], {}, {}, [], [];
      ovflist, next, threads, wq, mtx := Unactive, map[], map[], [], Free;
      chain := [];
    }

    method WakeUpLocked()
      modifies this`threads
      ensures Waiters(threads, wq) == WakeOne(old(Waiters(threads, wq)))
    {
      var w := WakeOne(Waiters(threads, wq));
      threads := w.threads;
    }

    /** `ep_poll_callback`. */
    method PollCallback(epi: ItemId, key: Mask) returns (ret: int)
      requires Valid() && epi in events
      modifies this
      ensures Valid() && View() == Next(old(View()), Callback(epi, key))
      ensures ret == CallbackResult(old(View()), epi, key)
    {
      StepKeepsInv(View(), Callback(epi, key));
      CallbackStep(View(), epi, key);
      ret := HandleCallback(epi, key);
    }

    method HandleCallback(epi: ItemId, key: Mask) returns (ret: int)
      requires PointersOk() && epi in events
      modifies this`rdllist, this`next, this`ovflist, this`chain, this`threads
      ensures PointersOk() && View() == AfterCallback(old(View()), epi, key)
      ensures ret == CallbackResult(old(View()), epi, key)
    {
      var ewake := 0;
      var concerned := Concerns(events[epi], key);
      if concerned {
        var scanning := QueueItem(epi);
        if !scanning {
          ewake := WakeForCallback(events[epi], key);
        }
      }
      ret := if Exclusive in events[epi] then ewake else 1;
    }

    /** The two tests at the start of the locked part. */
    static method Concerns(mask: Mask, key: Mask) returns (concerned: bool)
      ensures concerned == Matches(mask, key)
    {
      if mask - PRIVATE_BITS == {} {
        return false;
      }
      if key != {} && key * mask == {} {
        return false;
      }
      return true;
    }

    method QueueItem(epi: ItemId) returns (scanning: bool)
      requires PointersOk() && epi in events
      modifies this`rdllist, this`next, this`ovflist, this`chain
      ensures PointersOk() && View().l == Enlist(old(View().l), epi)
      ensures scanning == (old(ovflist) != Unactive)
    {
      scanning := ovflist != Unactive;
      if scanning {
        ChainItem(epi);
      } else if epi !in rdllist && epi !in txlist {
        rdllist := rdllist + [epi];
      }
    }

    /** Pushes the item on the overflow chain unless it is chained already. */
    method ChainItem(epi: ItemId)
      requires PointersOk() && ovflist != Unactive && epi in next
      modifies this`next, this`ovflist, this`chain
      ensures PointersOk() && ovflist != Unactive
      ensures chain == if epi in old(chain) then old(chain) else [epi] + old(chain)
    {
      if next[epi] == Unactive {
        ChainPush(ovflist, next, chain, epi);
        next := next[epi := ovflist];
        ovflist := To(epi);
        chain := [epi] + chain;
      }
    }

    method WakeForCallback(mask: Mask, key: Mask) returns (ewake: int)
      modifies this`threads
      ensures Waiters(threads, wq) == WakeOne(old(Waiters(threads, wq)))
      ensures ewake == Absorbed(mask, key, wq)
    {
      ewake := 0;
      if wq != [] {
        if Exclusive in mask && PollFree !in key {
          var io := key * {PollIn, PollOut};
          if io == {PollIn} {
            if PollIn in mask { ewake := 1; }
          } else if io == {PollOut} {
            if PollOut in mask { ewake := 1; }
          } else if io == {} {
            ewake := 1;
          }
        }
        WakeUpLocked();
      }
    }

    /** `ep_poll` with a timeout of zero: one look at the lists, without the wait queue. */
    method PollOnce(t: Tid, max: nat) returns (exit: Exit)
      requires Valid() && t !in threads && max > 0
      modifies this`threads, this`wq
      ensures Valid() && View() == Next(old(View()), PollNow(t, max))
      ensures exit == ExitOf(old(View()), PollNow(t, max))
    {
      StepKeepsInv(View(), PollNow(t, max));
      exit := ReturnsCount(0);
      if rdllist != [] || ovflist != Unactive {
        exit := Stays;
        threads := threads[t := Committed(max, true)];
        wq := Without(wq, {t});
      }
    }

    /** The lock hold of `ep_poll` from fetch_events to the first sleep or to check_events. */
    method FetchEvents(t: Tid, signal: bool) returns (exit: Exit)
      requires Valid() && t in threads && threads[t].Fetching?
      modifies this`threads, this`wq
      ensures Valid() && View() == Next(old(View()), Fetch(t, signal))
      ensures exit == ExitOf(old(View()), Fetch(t, signal))
    {
      StepKeepsInv(View(), Fetch(t, signal));
      exit := Stays;
      var max := threads[t].max;
      if rdllist == [] && ovflist == Unactive {
        wq := wq + [t];
        if signal {
          exit := ReturnsEintr;
          wq := Without(wq, {t});
          threads := threads - {t};
        } else {
          threads := threads[t := Asleep(max)];
        }
      } else {
        wq := Without(wq, {t});
        threads := threads[t := Committed(max, false)];
      }
    }

    /** The lock hold of `ep_poll` after a sleep. */
    method RecheckEvents(t: Tid, signal: bool) returns (exit: Exit)
      requires Valid() && t in threads && threads[t].Awake?
      modifies this`threads, this`wq
      ensures Valid() && View() == Next(old(View()), Recheck(t, signal))
      ensures exit == ExitOf(old(View()), Recheck(t, signal))
    {
      StepKeepsInv(View(), Recheck(t, signal));
      exit := Stays;
      var max, timedOut := threads[t].max, threads[t].timedOut;
      var available := rdllist != [] || ovflist != Unactive;
      if available || timedOut {
        wq := Without(wq, {t});
        if available {
          threads := threads[t := Committed(max, timedOut)];
        } else {
          threads := threads - {t};
          exit := ReturnsCount(0);
        }
      } else if signal {
        exit := ReturnsEintr;
        wq := Without(wq, {t});
        threads := threads - {t};
      } else {
        threads := threads[t := Asleep(max)];
      }
    }

    /** The opening critical section of `ep_scan_ready_list`. */
    method StealReadyList(t: Tid)
      requires Valid() && mtx.Free? && t in threads && threads[t].Committed?
      modifies this
      ensures Valid() && View() == Next(old(View()), BeginScan(t))
    {
      StepKeepsInv(View(), BeginScan(t));
      mtx := Scan(t, [], [], false);
      threads := threads[t := Scanning(threads[t].max, threads[t].timedOut)];
      Steal();
    }

    method Steal()
      requires PointersOk() && ovflist == Unactive
      modifies this`rdllist, this`txlist, this`ovflist, this`chain
      ensures PointersOk() && View().l == Epoll.Steal(old(View().l))
    {
      txlist := rdllist;
      rdllist := [];
      ovflist, chain := Null, [];
    }

    /** One iteration of the loop of `ep_send_events_proc`. */
    method SendOne(ready: Mask, fault: bool)
      requires Valid() && Enabled(View(), ScanItem(ready, fault))
      modifies this`rdllist, this`txlist, this`events, this`mtx
      ensures Valid() && View() == Next(old(View()), ScanItem(ready, fault))
    {
      StepKeepsInv(View(), ScanItem(ready, fault));
      PollHeadInv(View().l, ready, fault);
      DeliverHead(ready, fault);
    }

    /** Takes the head of the stolen list, polls it and delivers, requeues or puts it back. */
    method DeliverHead(ready: Mask, fault: bool)
      requires txlist != [] && txlist[0] in events && mtx.Scan? && !mtx.faulted
      modifies this`rdllist, this`txlist, this`events, this`mtx
      ensures View().l == PollHead(old(View().l), ready, fault)
      ensures events.Keys == old(events.Keys)
      ensures var epi := old(txlist[0]); var hit := ready * old(events[epi]) != {};
        mtx == old(mtx).(polled := old(mtx.polled) + [epi], faulted := hit && fault,
                         sent := if hit && !fault then old(mtx.sent) + [epi] else old(mtx.sent))
    {
      var epi := txlist[0];
      txlist := txlist[1..];
      mtx := mtx.(polled := mtx.polled + [epi]);
      var revents := ready * events[epi];
      if revents != {} {
        if fault {
          txlist := [epi] + txlist;
          mtx := mtx.(faulted := true);
        } else {
          mtx := mtx.(sent := mtx.sent + [epi]);
          if OneShot in events[epi] {
            events := events[epi := events[epi] * PRIVATE_BITS];
          } else if EdgeTriggered !in events[epi] {
            rdllist := rdllist + [epi];
          }
        }
      }
    }

    /** The closing critical section of `ep_scan_ready_list`. */
    method FinishScan() returns (res: int)
      requires Valid() && Enabled(View(), EndScan)
      modifies this
      ensures Valid() && View() == Next(old(View()), EndScan)
      ensures ovflist == Unactive && res == ScanResult(old(mtx))
    {
      StepKeepsInv(View(), EndScan);
      EndScanStep(View());
      res := EndScanLocked();
    }

    method EndScanLocked() returns (res: int)
      requires PointersOk() && ScanHeld(View())
      modifies this`ovflist, this`next, this`rdllist, this`txlist, this`threads, this`mtx
      ensures PointersOk() && View() == AfterScan(old(View()))
      ensures ovflist == Unactive && res == ScanResult(old(mtx))
    {
      RequeueItems();
      res := CloseScan(rdllist != []);
    }

    /** Overflow items go to the tail of the ready list, leftovers of the scan to its head. */
    method RequeueItems()
      requires PointersOk() && ovflist != Unactive
      modifies this`ovflist, this`next, this`rdllist, this`txlist
      ensures PointersOk() && ovflist == Unactive
      ensures View().l == Requeue(old(View()).l)
    {
      next, rdllist := DrainChain(ovflist, next, rdllist, txlist, chain);
      ovflist := Unactive;
      rdllist := txlist + rdllist;
      txlist := [];
    }

    /** Wakes a waiter if anything is left, releases the mutex and decides what `ep_poll` does next. */
    method CloseScan(wake: bool) returns (res: int)
      requires mtx.Scan? && mtx.tid in threads && threads[mtx.tid].Scanning?
      modifies this`threads, this`mtx
      ensures mtx == Free
      ensures var w := Released(old(Waiters(threads, wq)), old(mtx));
        Waiters(threads, wq) == if wake then WakeOne(w) else w
      ensures res == ScanResult(old(mtx))
    {
      var t, sent, faulted := mtx.tid, mtx.sent, mtx.faulted;
      mtx := Free;
      res := if sent != [] then |sent| else if faulted then -EFAULT else 0;
      if res == 0 && !threads[t].timedOut {
        threads := threads[t := Fetching(threads[t].max)];
      } else {
        threads := threads - {t};
      }
      if wake { WakeUpLocked(); }
    }

    /** The callbacks of one round run; those for unknown items hit nothing. */
    method Interfere(callbacks: seq<(ItemId, Mask)>) returns (ghost trace: seq<Action>)
      requires Valid() && mtx.Scan?
      modifies this
      ensures Valid() && View() == old(View()).(l := old(View()).l.(ovf := View().l.ovf))
      ensures ValidRun(old(View()), trace) && View() == After(old(View()), trace)
      ensures forall a :: a in trace ==> a.Callback?
      ensures View() == Interfered(old(View()), callbacks)
    {
      trace := [];
      for n := 0 to |callbacks|
        invariant Valid() && View() == old(View()).(l := old(View()).l.(ovf := View().l.ovf))
        invariant ValidRun(old(View()), trace) && View() == After(old(View()), trace)
        invariant forall a :: a in trace ==> a.Callback?
        invariant View() == Interfered(old(View()), callbacks[..n])
      {
        assert callbacks[..n + 1][..n] == callbacks[..n];
        var (epi, key) := callbacks[n];
        if epi in events {
          CallbackInScan(View(), epi, key);
          Extend(old(View()), trace, Callback(epi, key));
          var _ := PollCallback(epi, key);
          trace := trace + [Callback(epi, key)];
        }
      }
      assert callbacks[..|callbacks|] == callbacks;
    }

    /** One pass of the loop of `ep_send_events_proc`, with the callbacks that run before it. */
    method SendRound(round: Round) returns (ghost trace: seq<Action>)
      requires Valid() && mtx.Scan? && round.ready !! PRIVATE_BITS
      requires txlist != [] && !mtx.faulted && |mtx.sent| < threads[mtx.tid].max
      modifies this
      ensures Valid() && mtx.Scan?
      ensures mtx.faulted || |txlist| < |old(txlist)|
      ensures ValidRun(old(View()), trace) && View() == After(old(View()), trace)
      ensures forall a :: a in trace ==> a.Callback? || a.ScanItem?
      ensures View() == Rounded(old(View()), round)
    {
      trace := Interfere(round.callbacks);
      Extend(old(View()), trace, ScanItem(round.ready, round.fault));
      SendOne(round.ready, round.fault);
      trace := trace + [ScanItem(round.ready, round.fault)];
    }

    /**
     * `ep_send_events_proc`: polls the stolen items one by one, any callbacks running between two
     * iterations, until the list is empty, maxevents are delivered or a copy faults.
     */
    method SendEvents(rounds: seq<Round>) returns (ghost trace: seq<Action>)
      requires Valid() && mtx.Scan? && Reportable(rounds)
      modifies this
      ensures Valid() && Enabled(View(), EndScan)
      ensures ValidRun(old(View()), trace) && View() == After(old(View()), trace)
      ensures forall a :: a in trace ==> a.Callback? || a.ScanItem?
      ensures View() == Swept(old(View()), rounds, 0)
    {
      trace := [];
      var n := 0;
      while txlist != [] && !mtx.faulted && |mtx.sent| < threads[mtx.tid].max
        invariant Valid() && mtx.Scan?
        invariant Sweeping(old(View()), rounds, n, trace, View())
        decreases !mtx.faulted, |txlist|
      {
        ghost var t := View();
        var round := if n < |rounds| then rounds[n] else Round([], {}, false);
        ghost var pass := SendRound(round);
        SweepsOnce(old(View()), rounds, n, trace, t, pass);
        n := n + 1;
        trace := trace + pass;
      }
    }

    /** `ep_scan_ready_list`: a whole scan is a run of the protocol from the stealing to the requeueing. */
    method ScanReadyList(t: Tid, rounds: seq<Round>) returns (res: int, ghost trace: seq<Action>)
      requires Valid() && mtx.Free? && t in threads && threads[t].Committed?
      requires Reportable(rounds)
      modifies this
      ensures Valid() && ovflist == Unactive
      ensures var acts := [BeginScan(t)] + trace + [EndScan];
        ValidRun(old(View()), acts) && View() == After(old(View()), acts)
      ensures forall a :: a in trace ==> a.Callback? || a.ScanItem?
      ensures Inv(Next(old(View()), BeginScan(t)))
      ensures var s := Next(old(View()), BeginScan(t)); ValidRun(s, trace) && After(s, trace) == Swept(s, rounds, 0)
      ensures var s := Next(old(View()), BeginScan(t));
        ValidRun(s, trace) && res == Outcome(s, trace) && res <= old(threads[t]).max
      ensures var s := Next(old(View()), BeginScan(t));
        Enabled(After(s, trace), EndScan) &&
        match ExitOf(After(s, trace), EndScan)
        case ReturnsCount(n) => res == n
        case ReturnsFault => res == -EFAULT
        case _ => res == 0
    {
      StealReadyList(t);
      trace := SendEvents(rounds);
      assert Inv(Next(old(View()), BeginScan(t)));
      Bracket(old(View()), BeginScan(t), trace, EndScan);
      ScanResultIs(old(View()), t, trace);
      ScanReturns(old(View()), t, trace);
      res := FinishScan();
    }

    /** `ep_insert` up to the point where the poll hooks are installed. */
    method InsertHooks(epi: ItemId, mask: Mask)
      requires Valid() && mtx.Free? && epi !in events
      modifies this
      ensures Valid() && View() == Next(old(View()), InsertBegin(epi, mask))
    {
      StepKeepsInv(View(), InsertBegin(epi, mask));
      mtx := Ctl(epi, false);
      next := next[epi := Unactive];
      events := events[epi := mask + {PollErr, PollHup}];
    }

    method InsertIntoTree()
      requires Valid() && mtx.Ctl? && !mtx.inTree
      modifies this`links, this`tree, this`mtx
      ensures Valid() && View() == Next(old(View()), InsertTree)
    {
      StepKeepsInv(View(), InsertTree);
      links := links + {mtx.item};
      tree := tree + {mtx.item};
      mtx := mtx.(inTree := true);
    }

    /** The error paths of `ep_insert`. */
    method InsertAbort()
      requires Valid() && mtx.Ctl?
      modifies this
      ensures Valid() && View() == Next(old(View()), InsertFail)
    {
      StepKeepsInv(View(), InsertFail);
      UndoInsert();
    }

    method UndoInsert()
      requires PointersOk() && ovflist == Unactive && mtx.Ctl? && mtx.item in events
      requires !mtx.inTree ==> mtx.item !in tree && mtx.item !in links
      modifies this
      ensures PointersOk() && View() == Next(old(View()), InsertFail)
    {
      var epi := mtx.item;
      if mtx.inTree {
        links := links - {epi};
        tree := tree - {epi};
      }
      assert links == old(links) - {epi} && tree == old(tree) - {epi};
      Forget(epi);
      mtx := Free;
    }

    method Forget(epi: ItemId)
      requires epi in events && epi in next
      modifies this`rdllist, this`next, this`events
      ensures rdllist == Without(old(rdllist), {epi})
      ensures next == old(next) - {epi} && events == old(events) - {epi}
    {
      if epi in rdllist {
        rdllist := Without(rdllist, {epi});
      } else {
        WithoutNothing(rdllist, {epi});
      }
      next := next - {epi};
      events := events - {epi};
    }

    /** The final critical section of `ep_insert`. */
    method InsertComplete(ready: Mask)
      requires Valid() && mtx.Ctl? && mtx.inTree && ready !! PRIVATE_BITS
      modifies this
      ensures Valid() && View() == Next(old(View()), InsertEnd(ready))
    {
      StepKeepsInv(View(), InsertEnd(ready));
      var epi := mtx.item;
      mtx := Free;
      if ready * events[epi] != {} && epi !in rdllist && epi !in txlist {
        rdllist := rdllist + [epi];
        if wq != [] { WakeUpLocked(); }
      }
    }
  }
}
