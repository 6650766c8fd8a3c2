/** ONESHOT, edge-triggered and level-triggered delivery over whole runs. */
module EpollTriggers {
  import opened EventMasks
  import opened Epoll
  import opened EpollSafety

  /** The step copies an event of item `i` to user space. */
  ghost predicate Delivers(s: State, a: Action, i: ItemId) {
    a.ScanItem? && !a.fault && s.l.tx != [] && s.l.tx[0] == i && a.ready * MaskOf(s.l, i) != {}
  }

  /** The step sets the mask of item `i` (EPOLL_CTL_ADD or EPOLL_CTL_MOD). */
  predicate Arms(a: Action, i: ItemId) {
    (a.InsertBegin? || a.Modify?) && a.item == i
  }

  /** The step is a reason for `i` to enter a list: a matching callback, or an arming that finds it ready. */
  ghost predicate Raises(s: State, a: Action, i: ItemId) {
    || (a.Callback? && a.item == i && Hits(MaskOf(s.l, i), a.key))
    || (a.InsertEnd? && s.mtx.Ctl? && s.mtx.item == i && ReadyUnlinked(s.l, i, a.ready))
    || (a.Modify? && a.item == i && ReadyUnlinked(SetMask(s.l, i, a.events), i, a.ready))
  }

  ghost function Deliveries(s: State, acts: seq<Action>, i: ItemId): nat
    requires ValidRun(s, acts)
  {
    if acts == [] then 0
    else
      var n := |acts| - 1;
      Deliveries(s, acts[..n], i) + (if Delivers(After(s, acts[..n]), acts[n], i) then 1 else 0)
  }

  ghost function Raised(s: State, acts: seq<Action>, i: ItemId): nat
    requires ValidRun(s, acts)
  {
    if acts == [] then 0
    else
      var n := |acts| - 1;
      Raised(s, acts[..n], i) + (if Raises(After(s, acts[..n]), acts[n], i) then 1 else 0)
  }

  // ---------- ONESHOT ----------

  lemma {:induction false} OneShotStep(s: State, a: Action, i: ItemId)
    requires ListsInv(s.l) && Enabled(s, a) && !Arms(a, i)
    requires i in s.l.items ==> OneShot in s.l.items[i]
    ensures var l := NextLists(s, a);
      && (i in l.items ==> i in s.l.items && OneShot in l.items[i])
      && (i in l.items && (Delivers(s, a, i) || Disabled(s.l.items[i])) ==> Disabled(l.items[i]))
      && (Delivers(s, a, i) ==> i in s.l.items && i in l.items && !Disabled(s.l.items[i]))
  {
    if a.ScanItem? {
      assert s.l.tx[0] in s.l.tx;
      DisabledNeverReady(MaskOf(s.l, i), a.ready);
    }
  }

  /**
   * Between two armings a ONESHOT item is delivered at most once, and not at all once it is
   * disabled, whatever callbacks hit it during its own delivery.
   */
  lemma {:induction false} OneShotOncePerArming(s: State, acts: seq<Action>, i: ItemId)
    requires Inv(s) && ValidRun(s, acts)
    requires i in s.l.items && OneShot in s.l.items[i]
    requires forall k :: 0 <= k < |acts| ==> !Arms(acts[k], i)
    ensures Deliveries(s, acts, i) <= (if Disabled(s.l.items[i]) then 0 else 1)
    ensures var l := After(s, acts).l;
      i in l.items ==>
        OneShot in l.items[i] && (Deliveries(s, acts, i) == 1 || Disabled(s.l.items[i]) ==> Disabled(l.items[i]))
  {
    if acts != [] {
      var n := |acts| - 1;
      OneShotOncePerArming(s, acts[..n], i);
      RunKeepsInv(s, acts[..n]);
      assert !Arms(acts[n], i);
      OneShotStep(After(s, acts[..n]), acts[n], i);
    }
  }

  /** A file reports poll bits only, so a disabled mask meets none of them. */
  lemma DisabledNeverReady(mask: Mask, ready: Mask)
    requires ready !! PRIVATE_BITS
    ensures Disabled(mask) ==> ready * mask == {}
  {
    assert ready * mask == ready * (mask - PRIVATE_BITS);
  }

  // ---------- edge-triggered ----------

  /** Places the item holds: one for the ready or stolen list, one for the overflow chain. */
  ghost function Places(l: Lists, i: ItemId): nat {
    (if Linked(l, i) then 1 else 0) + (if l.ovf.Active? && i in l.ovf.chain then 1 else 0)
  }

  predicate NotLevel(a: Action, i: ItemId) {
    Arms(a, i) ==> !LevelTriggered(a.events)
  }

  lemma {:induction false} EdgeStep(s: State, a: Action, i: ItemId)
    requires ListsInv(s.l) && MutexInv(s.l, s.mtx) && Enabled(s, a)
    requires i in s.l.items ==> !LevelTriggered(s.l.items[i])
    requires NotLevel(a, i)
    ensures var l := NextLists(s, a);
      && (i in l.items ==> !LevelTriggered(l.items[i]))
      && Places(l, i) + (if Delivers(s, a, i) then 1 else 0) <= Places(s.l, i) + (if Raises(s, a, i) then 1 else 0)
  {
    match a
    case Callback(j, key) => MatchesIffHits(MaskOf(s.l, j), key);
    case EndScan => RequeueInv(s.l);
    case ScanItem(ready, fault) => EdgeScanItem(s.l, ready, fault, i);
    case _ =>
  }

  lemma EdgeScanItem(l: Lists, ready: Mask, fault: bool, i: ItemId)
    requires ListsInv(l) && l.ovf.Active? && l.tx != []
    requires i in l.items ==> !LevelTriggered(l.items[i])
    ensures var l' := PollHead(l, ready, fault);
      && (i in l'.items ==> !LevelTriggered(l'.items[i]))
      && (if l.tx[0] == i && !(fault && ready * MaskOf(l, i) != {}) then Places(l', i) + 1 <= Places(l, i)
          else Places(l', i) == Places(l, i))
  {
    PollHeadInv(l, ready, fault);
    assert l.tx == [l.tx[0]] + l.tx[1..];
  }

  /**
   * An edge-triggered (or one-shot) item comes back only through a callback or a new arming:
   * over any part of any run its deliveries, plus the places it still holds, are covered by the
   * places it held at the start and the callbacks and armings since.
   */
  lemma {:induction false} EdgeTriggeredNeedsCallback(s: State, acts: seq<Action>, i: ItemId)
    requires Inv(s) && ValidRun(s, acts)
    requires i in s.l.items ==> !LevelTriggered(s.l.items[i])
    requires forall k :: 0 <= k < |acts| ==> NotLevel(acts[k], i)
    ensures var l := After(s, acts).l;
      && (i in l.items ==> !LevelTriggered(l.items[i]))
      && Deliveries(s, acts, i) + Places(l, i) <= Places(s.l, i) + Raised(s, acts, i)
  {
    if acts != [] {
      var n := |acts| - 1;
      EdgeTriggeredNeedsCallback(s, acts[..n], i);
      RunKeepsInv(s, acts[..n]);
      assert NotLevel(acts[n], i);
      EdgeStep(After(s, acts[..n]), acts[n], i);
    }
  }

  // ---------- level-triggered ----------

  /** When a scan ends, every level-triggered item it delivered is on the ready list. */
  lemma {:induction false} LevelTriggeredStaysReady(acts: seq<Action>, i: ItemId)
    requires ValidRun(INIT, acts) && Enabled(After(INIT, acts), EndScan)
    requires var s := After(INIT, acts); i in s.mtx.sent && LevelTriggered(MaskOf(s.l, i))
    ensures i in Next(After(INIT, acts), EndScan).l.rdl
  {
    RunKeepsInv(INIT, acts);
    RequeueInv(After(INIT, acts).l);
  }
}
