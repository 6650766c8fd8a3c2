/** A numeric bound on how long a ready item waits to be polled again. */
module EpollFairness {
  import opened Sequences
  import opened Epoll
  import opened EpollSafety

  ghost function Scans(acts: seq<Action>): nat {
    if acts == [] then 0
    else Scans(acts[..|acts| - 1]) + (if acts[|acts| - 1].EndScan? then 1 else 0)
  }

  /** Items that may still be ahead of one that had `p` ahead, each scan taking `m` of them. */
  ghost function Budget(p: nat, m: nat, acts: seq<Action>): int {
    if acts == [] then p
    else Budget(p, m, acts[..|acts| - 1]) - (if acts[|acts| - 1].EndScan? then m else 0)
  }

  lemma {:induction false} BudgetIs(p: nat, m: nat, acts: seq<Action>)
    ensures Budget(p, m, acts) == p - m * Scans(acts)
  {
    if acts != [] { BudgetIs(p, m, acts[..|acts| - 1]); }
  }

  ghost predicate PolledIn(s: State, acts: seq<Action>, i: ItemId)
    requires ValidRun(s, acts)
  {
    acts != [] &&
    (var n := |acts| - 1;
     PolledIn(s, acts[..n], i) || (acts[n].ScanItem? && After(s, acts[..n]).l.tx[0] == i))
  }

  predicate Inserting(s: State, i: ItemId) {
    s.mtx.Ctl? && s.mtx.item == i
  }

  /** No copy faults, every caller asks for at least `m` events, the item is not removed and its insert does not fail. */
  predicate Fair(s: State, a: Action, i: ItemId, m: nat) {
    && (a.ScanItem? ==> !a.fault)
    && (a.EnterWait? || a.PollNow? ==> a.max >= m)
    && !(a.Remove? && a.item == i)
    && !(a.InsertFail? && Inserting(s, i))
  }

  ghost predicate FairRun(s: State, acts: seq<Action>, i: ItemId, m: nat)
    requires ValidRun(s, acts)
  {
    acts == [] ||
    (var n := |acts| - 1;
     FairRun(s, acts[..n], i, m) && Fair(After(s, acts[..n]), acts[n], i, m))
  }

  ghost predicate AllAskFor(s: State, m: nat) {
    && (forall t :: t in s.w.threads ==> s.w.threads[t].max >= m)
    && (s.mtx.Scan? ==> !s.mtx.faulted)
  }

  /** Item `i` waits with at most `bound` items ahead, counting those the running scan has passed. */
  ghost predicate Waiting(s: State, i: ItemId, bound: int) {
    if s.mtx.Scan?
    then exists q :: 0 <= q < |s.l.tx| && s.l.tx[q] == i && q + |s.mtx.polled| <= bound
    else exists q :: 0 <= q < |s.l.rdl| && s.l.rdl[q] == i && q <= bound
  }

  /** Away from scans and removals, a ready item keeps its position. */
  lemma {:induction false} PositionKept(s: State, a: Action, q: nat)
    requires MutexInv(s.l, s.mtx) && Enabled(s, a) && !s.mtx.Scan? && q < |s.l.rdl|
    requires !a.BeginScan? && !a.Remove? && !a.InsertFail?
    ensures q < |NextLists(s, a).rdl| && NextLists(s, a).rdl[q] == s.l.rdl[q] && !NextMutex(s, a).Scan?
  {
  }

  /** Dropping another item moves a ready item forward at most. */
  lemma {:induction false} DropKeepsWaiting(l: Lists, i: ItemId, j: ItemId, q: nat) returns (r: nat)
    requires q < |l.rdl| && l.rdl[q] == i && j != i
    ensures r <= q && r < |Drop(l, j).rdl| && Drop(l, j).rdl[r] == i
  {
    r := WithoutIndex(l.rdl, {j}, q);
  }

  lemma {:induction false} WaitingIdle(s: State, a: Action, i: ItemId, bound: int, m: nat)
    requires MutexInv(s.l, s.mtx) && Enabled(s, a) && Fair(s, a, i, m)
    requires !s.mtx.Scan? && Waiting(s, i, bound)
    ensures Waiting(Next(s, a), i, bound)
  {
    var q: nat :| q < |s.l.rdl| && s.l.rdl[q] == i && q <= bound;
    if a.BeginScan? {
      assert Next(s, a).l.tx[q] == i;
    } else if a.Remove? {
      var r := DropKeepsWaiting(s.l, i, a.item, q);
      assert Next(s, a).l.rdl[r] == i;
    } else if a.InsertFail? {
      var r := DropKeepsWaiting(s.l, i, s.mtx.item, q);
      assert Next(s, a).l.rdl[r] == i;
    } else {
      PositionKept(s, a, q);
      assert Next(s, a).l.rdl[q] == i;
    }
  }

  lemma {:induction false} WaitingScan(s: State, a: Action, i: ItemId, bound: int, m: nat)
    requires Inv(s) && Enabled(s, a) && AllAskFor(s, m) && Fair(s, a, i, m)
    requires s.mtx.Scan? && Waiting(s, i, bound)
    requires !(a.ScanItem? && s.l.tx[0] == i)
    ensures Waiting(Next(s, a), i, if a.EndScan? then bound - m else bound)
  {
    var s' := Next(s, a);
    var q :| 0 <= q < |s.l.tx| && s.l.tx[q] == i && q + |s.mtx.polled| <= bound;
    if a.ScanItem? {
      assert q > 0;
      assert s'.l.tx[q - 1] == i;
    } else if a.EndScan? {
      assert s'.l.rdl[q] == i;
    } else {
      ScanFrame(s, a);
      assert s'.l.tx[q] == i;
    }
  }

  lemma {:induction false} WaitingRun(s: State, acts: seq<Action>, i: ItemId, p: nat, m: nat)
    requires Inv(s) && AllAskFor(s, m) && ValidRun(s, acts)
    requires !s.mtx.Scan? && p < |s.l.rdl| && s.l.rdl[p] == i
    requires FairRun(s, acts, i, m)
    ensures AllAskFor(After(s, acts), m)
    ensures PolledIn(s, acts, i) || Waiting(After(s, acts), i, Budget(p, m, acts))
  {
    if acts != [] {
      var n := |acts| - 1;
      WaitingRun(s, acts[..n], i, p, m);
      RunKeepsInv(s, acts[..n]);
      var s1 := After(s, acts[..n]);
      AskStep(s1, acts[n], i, m);
      if PolledIn(s, acts[..n], i) {
      } else if s1.mtx.Scan? {
        if !(acts[n].ScanItem? && s1.l.tx[0] == i) {
          WaitingScan(s1, acts[n], i, Budget(p, m, acts[..n]), m);
        }
      } else {
        WaitingIdle(s1, acts[n], i, Budget(p, m, acts[..n]), m);
      }
    }
  }

  lemma {:induction false} AskStep(s: State, a: Action, i: ItemId, m: nat)
    requires Enabled(s, a) && AllAskFor(s, m) && Fair(s, a, i, m)
    ensures AllAskFor(Next(s, a), m)
  {
    forall t | t in Next(s, a).w.threads
      ensures Next(s, a).w.threads[t].max >= m
    {
      if t in s.w.threads { MaxKept(s, a, t); }
    }
  }

  /**
   * Fairness: if every caller asks for at least m >= 1 events and no copy faults, an item with p
   * items ahead of it on the ready list has been polled again by the end of p / m + 1 scans,
   * however many items requeue themselves, arrive, or are inserted and removed meanwhile.
   */
  lemma {:induction false} ReadyItemPolledWithin(s: State, acts: seq<Action>, i: ItemId, p: nat, m: nat)
    requires Inv(s) && AllAskFor(s, m) && ValidRun(s, acts)
    requires m >= 1 && !s.mtx.Scan? && p < |s.l.rdl| && s.l.rdl[p] == i
    requires FairRun(s, acts, i, m)
    requires Scans(acts) >= p / m + 1
    ensures PolledIn(s, acts, i)
  {
    WaitingRun(s, acts, i, p, m);
    BudgetIs(p, m, acts);
    Exceeds(p, m, Scans(acts));
  }

  lemma Exceeds(p: nat, m: nat, c: nat)
    requires m >= 1 && c >= p / m + 1
    ensures p - m * c < 0
  {
    assert m * c == m * (p / m + 1) + m * (c - (p / m + 1));
    assert m * (c - (p / m + 1)) >= 0;
    assert m * (p / m + 1) == m * (p / m) + m;
  }
}
