/** Ownership of timer objects, agreement of the two indexes, and a kernel timer never armed late. */
module TimerQueueSafety {
  import opened Timers
  import opened TimerQueueSpec

  function EntryAt(s: State, a: nat): Entry
    requires a in s.heap
  {
    Entry(s.heap[a].expiration, a)
  }

  predicate Indexed(s: State, a: nat) {
    a in s.heap && EntryAt(s, a) in s.timers
  }

  predicate InBatch(s: State, a: nat) {
    a in s.heap && EntryAt(s, a) in s.batch
  }

  /** Entries point to live timers and carry their expirations. */
  ghost predicate Points(s: State, es: seq<Entry>) {
    forall e :: e in es ==> e.addr in s.heap && s.heap[e.addr].expiration == e.when
  }

  /** Exactly one of: waiting to be added, indexed, in the batch being executed. */
  predicate OneOwner(s: State, a: nat) {
    var p, i, b := a in s.pending, Indexed(s, a), InBatch(s, a);
    (p || i || b) && !(p && i) && !(p && b) && !(i && b)
  }

  ghost predicate OwnersInv(s: State) {
    && Points(s, s.timers) && Points(s, s.batch)
    && (forall a :: a in s.pending ==> a in s.heap)
    && (forall a {:trigger OneOwner(s, a)} :: a in s.heap ==> OneOwner(s, a))
  }

  /** Every live timer stands at the address issued with its sequence number. */
  ghost predicate IssuedInv(s: State) {
    && (forall a :: a in s.heap ==> ValidAddr(a))
    && (forall a :: a in s.heap ==> 1 <= s.heap[a].sequence <= |s.issued| && s.issued[s.heap[a].sequence - 1] == a)
  }

  /** `activeTimers_` lists exactly the timers of `timers_`. */
  ghost predicate ActiveInv(s: State) {
    forall id :: id in s.active <==> Indexed(s, id.addr) && s.heap[id.addr].sequence == id.sequence
  }

  ghost predicate PhaseInv(s: State) {
    && s.clock > 0
    && Sorted(s.timers) && Sorted(s.batch)
    && (s.phase.Idle? ==> s.batch == [])
    && (s.phase.Calling? ==> s.phase.ran <= |s.batch|)
    && (!s.phase.Idle? ==> 0 < s.phase.now <= s.clock)
  }

  /** The timerfd will be readable no later than the earliest expiration or 100 microseconds after arming. */
  predicate InTime(s: State) {
    s.timers != [] ==>
      s.fd.Armed? && (s.fd.deadline <= s.timers[0].when || s.fd.deadline <= s.fd.at + 100)
  }

  /** Inside a batch the timerfd is re-armed at the end, unless the earliest time is not a valid one. */
  ghost predicate ArmedInv(s: State) {
    (s.timers != [] && (s.phase.Idle? || !ValidTime(s.timers[0].when)) ==> InTime(s))
  }

  ghost predicate Inv(s: State) {
    OwnersInv(s) && IssuedInv(s) && ActiveInv(s) && PhaseInv(s) && ArmedInv(s)
  }

  // ---------- steps ----------

  lemma HeadOfInsert(ts: seq<Entry>, e: Entry)
    ensures Insert(ts, e)[0] == if ts == [] || Less(e, ts[0]) then e else ts[0]
  {
  }

  /** The timer at `addr`, which nobody owns, goes into both indexes. */
  lemma {:induction false} InsertInv(s: State, addr: nat)
    requires Points(s, s.timers) && Points(s, s.batch) && ActiveInv(s) && Sorted(s.timers)
    requires addr in s.heap && !Indexed(s, addr) && !InBatch(s, addr) && addr !in s.pending
    requires forall a :: a in s.pending ==> a in s.heap
    requires forall a {:trigger OneOwner(s, a)} :: a in s.heap && a != addr ==> OneOwner(s, a)
    ensures var s' := InsertTimer(s, addr); OwnersInv(s') && ActiveInv(s') && Sorted(s'.timers)
  {
    var s' := InsertTimer(s, addr);
    InsertSorted(s.timers, EntryAt(s, addr));
    forall a | a in s'.heap ensures OneOwner(s', a) {
      assert a != addr ==> OneOwner(s, a);
    }
  }

  lemma {:induction false} AddKeepsInv(s: State, a: Action)
    requires Inv(s) && Enabled(s, a) && a.Add?
    ensures Inv(Next(s, a))
  {
    var s1 := s.(pending := s.pending - {a.addr});
    assert OneOwner(s, a.addr);
    forall x | x in s.heap && x != a.addr ensures OneOwner(s1, x) {
      assert OneOwner(s, x);
    }
    InsertInv(s1, a.addr);
    SameOwners(InsertTimer(s1, a.addr), Next(s, a));
    AddInTime(s, a);
  }

  lemma {:induction false} AddInTime(s: State, a: Action)
    requires ArmedInv(s) && Enabled(s, a) && a.Add?
    ensures ArmedInv(Next(s, a))
  {
    HeadOfInsert(s.timers, EntryAt(s, a.addr));
  }

  lemma SameOwners(s: State, s': State)
    requires OwnersInv(s) && ActiveInv(s)
    requires s'.heap == s.heap && s'.pending == s.pending && s'.timers == s.timers && s'.batch == s.batch
    requires s'.active == s.active
    ensures OwnersInv(s') && ActiveInv(s')
  {
    forall a | a in s'.heap ensures OneOwner(s', a) {
      assert OneOwner(s, a);
    }
  }

  lemma {:induction false} CancelKeepsInv(s: State, a: Action)
    requires Inv(s) && Enabled(s, a) && a.Cancel?
    ensures Inv(Next(s, a))
  {
    if a.id in s.active {
      EraseSorted(s.timers, EntryAt(s, a.id.addr));
      EraseOwners(s, a.id);
    } else {
      SameOwners(s, Next(s, a));
    }
  }

  lemma {:induction false} EraseOwners(s: State, id: TimerId)
    requires OwnersInv(s) && ActiveInv(s) && Sorted(s.timers) && id in s.active
    ensures OwnersInv(CancelInLoop(s, id)) && ActiveInv(CancelInLoop(s, id))
  {
    var s' := CancelInLoop(s, id);
    assert OneOwner(s, id.addr);
    EraseSorted(s.timers, EntryAt(s, id.addr));
    forall a | a in s'.heap ensures OneOwner(s', a) {
      assert OneOwner(s, a);
    }
  }

  lemma {:induction false} ExpireOwners(s: State)
    requires OwnersInv(s) && ActiveInv(s) && Sorted(s.timers) && IssuedInv(s) && s.batch == []
    ensures OwnersInv(StartBatch(s)) && ActiveInv(StartBatch(s))
  {
    var s' := StartBatch(s);
    SplitBatch(s);
    forall x | x in s'.heap ensures OneOwner(s', x) {
      assert OneOwner(s, x);
    }
  }

  /** The batch is the due part of the index: everything in it is due, nothing left is. */
  lemma SplitBatch(s: State)
    requires Points(s, s.timers) && Sorted(s.timers) && IssuedInv(s)
    ensures var s' := StartBatch(s);
      && s.timers == s'.batch + s'.timers
      && (forall e :: e in s'.batch ==> e.when <= s.clock)
      && (forall e :: e in s'.timers ==> e.when > s.clock)
      && Sorted(s'.batch) && Sorted(s'.timers)
  {
    SentinelSplits(s.timers, s.clock);
  }

  lemma {:induction false} ExpireKeepsInv(s: State, a: Action)
    requires Inv(s) && Enabled(s, a) && a.Expire?
    ensures Inv(Next(s, a))
  {
    ExpireOwners(s);
    SplitBatch(s);
  }

  lemma {:induction false} DeleteInv(s: State)
    requires OwnersInv(s) && ActiveInv(s) && Sorted(s.timers) && Sorted(s.batch)
    requires s.phase.Resetting? && s.batch != []
    requires var a := s.batch[0].addr; a in s.heap && !(s.heap[a].Repeat() && IdOf(s, a) !in s.canceling)
    ensures var s' := ResetOne(s); OwnersInv(s') && ActiveInv(s') && Sorted(s'.timers)
  {
    var s' := ResetOne(s);
    var e := s.batch[0];
    assert s.batch == [e] + s.batch[1..] && e !in s.batch[1..];
    assert OneOwner(s, e.addr);
    forall x | x in s'.heap ensures OneOwner(s', x) {
      assert OneOwner(s, x);
    }
  }

  lemma {:induction false} ResetKeepsInv(s: State, a: Action)
    requires Inv(s) && Enabled(s, a) && a.ResetNext?
    ensures Inv(Next(s, a))
  {
    var e := s.batch[0];
    assert e in s.batch;
    if s.heap[e.addr].Repeat() && IdOf(s, e.addr) !in s.canceling {
      RestartInv(s);
      HeadOfInsert(s.timers, Entry(AddTime(s.phase.now, s.heap[e.addr].interval), e.addr));
    } else {
      DeleteInv(s);
    }
  }

  lemma {:induction false} RestartInv(s: State)
    requires OwnersInv(s) && ActiveInv(s) && Sorted(s.timers) && Sorted(s.batch)
    requires s.phase.Resetting? && s.batch != []
    requires var a := s.batch[0].addr; a in s.heap && s.heap[a].Repeat() && IdOf(s, a) !in s.canceling
    ensures var s' := ResetOne(s); OwnersInv(s') && ActiveInv(s') && Sorted(s'.timers)
  {
    var e := s.batch[0];
    var s1 := s.(batch := s.batch[1..], heap := s.heap[e.addr := s.heap[e.addr].Restart(s.phase.now)]);
    assert s.batch == [e] + s.batch[1..] && e !in s.batch[1..];
    assert OneOwner(s, e.addr);
    forall x | x in s1.heap && x != e.addr ensures OneOwner(s1, x) {
      assert OneOwner(s, x);
    }
    InsertInv(s1, e.addr);
  }

  lemma {:induction false} CreateKeepsInv(s: State, a: Action)
    requires Inv(s) && Enabled(s, a) && a.Create?
    ensures Inv(Next(s, a))
  {
    var s' := Next(s, a);
    forall x | x in s'.heap ensures OneOwner(s', x) {
      assert x != a.addr ==> OneOwner(s, x);
    }
  }

  lemma {:induction false} StepKeepsInv(s: State, a: Action)
    requires Inv(s) && Enabled(s, a)
    ensures Inv(Next(s, a))
  {
    match a
    case Add(_) => AddKeepsInv(s, a);
    case Cancel(_) => CancelKeepsInv(s, a);
    case Expire => ExpireKeepsInv(s, a);
    case ResetNext => ResetKeepsInv(s, a);
    case Create(_, _, _) => CreateKeepsInv(s, a);
    case _ => SameOwners(s, Next(s, a));
  }

  lemma {:induction false} RunKeepsInv(s: State, acts: seq<Action>)
    requires Inv(s) && ValidRun(s, acts)
    ensures Inv(After(s, acts))
  {
    if acts != [] {
      var n := |acts| - 1;
      RunKeepsInv(s, acts[..n]);
      StepKeepsInv(After(s, acts[..n]), acts[n]);
    }
  }

  // ---------- theorems ----------

  /**
   * The kernel timer is never armed late: outside `handleRead`, whatever was added, cancelled and
   * run before, a nonempty queue has the timerfd readable as soon as the clock has reached both the
   * earliest expiration and 100 microseconds after the last arming.
   */
  lemma {:induction false} NeverArmedLate(clock: int, acts: seq<Action>)
    requires clock > 0 && ValidRun(Init(clock), acts)
    requires var s := After(Init(clock), acts); s.phase.Idle? && s.timers != []
    ensures var s := After(Init(clock), acts);
      && s.fd.Armed?
      && s.fd.deadline <= (if s.timers[0].when >= s.fd.at + 100 then s.timers[0].when else s.fd.at + 100)
      && (s.clock >= s.timers[0].when && s.clock >= s.fd.at + 100 ==> s.fd.Readable(s.clock))
  {
    RunKeepsInv(Init(clock), acts);
  }

  /** Sequence numbers identify timers: two live timers never share one. */
  lemma SequencesUnique(s: State, a: nat, b: nat)
    requires IssuedInv(s) && a in s.heap && b in s.heap && s.heap[a].sequence == s.heap[b].sequence
    ensures a == b
  {
  }

  /**
   * Ownership over every run: each live timer is waiting to be added, indexed, or in the current
   * batch, and in one of them only; entries never dangle; both indexes list the same timers and
   * have the same size.
   */
  lemma {:induction false} TimersHaveOneOwner(clock: int, acts: seq<Action>)
    requires clock > 0 && ValidRun(Init(clock), acts)
    ensures var s := After(Init(clock), acts);
      && (forall a {:trigger OneOwner(s, a)} :: a in s.heap ==> OneOwner(s, a))
      && Points(s, s.timers) && Points(s, s.batch)
      && ActiveInv(s) && |s.active| == |s.timers|
  {
    RunKeepsInv(Init(clock), acts);
    var s := After(Init(clock), acts);
    ActiveSize(s, s.timers);
    assert s.active == IdsIn(s, s.timers);
  }

  ghost function IdsIn(s: State, ts: seq<Entry>): set<TimerId>
    requires Points(s, ts)
  {
    set e | e in ts :: IdOf(s, e.addr)
  }

  lemma {:induction false} ActiveSize(s: State, ts: seq<Entry>)
    requires Points(s, ts) && Sorted(ts)
    ensures |IdsIn(s, ts)| == |ts|
  {
    if ts != [] {
      var front := ts[1..];
      assert ts == [ts[0]] + front;
      ActiveSize(s, front);
      assert ts[0] !in front;
      assert IdOf(s, ts[0].addr) !in IdsIn(s, front);
      assert IdsIn(s, ts) == IdsIn(s, front) + {IdOf(s, ts[0].addr)};
    }
  }

  /** A stale id never touches a newer timer at the same address: cancelling it deletes nothing. */
  lemma {:induction false} StaleIdIsHarmless(clock: int, acts: seq<Action>, id: TimerId)
    requires clock > 0 && ValidRun(Init(clock), acts) && Enabled(After(Init(clock), acts), Cancel(id))
    requires var s := After(Init(clock), acts); id.addr in s.heap ==> s.heap[id.addr].sequence != id.sequence
    ensures var s := After(Init(clock), acts); var s' := Next(s, Cancel(id));
      s'.heap == s.heap && s'.timers == s.timers && s'.active == s.active
  {
    RunKeepsInv(Init(clock), acts);
  }
}
