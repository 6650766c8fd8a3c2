/** The two-index queue with its raw pointers refines the simple scheduler, step by step. */
module TimerQueueRefinement {
  import opened Timers
  import opened TimerQueueSpec
  import opened TimerQueueSafety
  import opened Scheduler

  /** Timer number `q` is alive, at the address it was created at. */
  predicate Holds(s: State, q: nat)
    requires 1 <= q <= |s.issued|
  {
    s.issued[q - 1] in s.heap && s.heap[s.issued[q - 1]].sequence == q
  }

  function JobAt(s: State, a: nat): Job
    requires a in s.heap
  {
    Job(s.heap[a].expiration, s.heap[a].interval)
  }

  /** The status of timer number `q`. */
  function StatusOf(s: State, q: nat): Status
    requires 1 <= q <= |s.issued|
  {
    var a := s.issued[q - 1];
    if !Holds(s, q) then Deleted
    else if a in s.pending then Waiting(JobAt(s, a))
    else if Indexed(s, a) then Live(JobAt(s, a))
    else Due(JobAt(s, a), HasRun(s, EntryAt(s, a)), TimerId(a, q) in s.canceling)
  }

  predicate HasRun(s: State, e: Entry) {
    s.phase.Calling? && s.phase.ran <= |s.batch| ==> e in s.batch[..s.phase.ran]
  }

  function NumberAt(s: State, e: Entry): nat {
    if e.addr in s.heap then s.heap[e.addr].sequence else 0
  }

  function LabelOf(s: State, a: Action): Label
    requires Enabled(s, a)
  {
    match a
    case Add(addr) => Added(s.heap[addr].sequence)
    case Cancel(id) => Cancelled(id.sequence)
    case Expire => Expired(s.clock)
    case RunNext => Ran(NumberAt(s, s.batch[s.phase.ran]))
    case ResetNext => Settled(NumberAt(s, s.batch[0]), s.phase.now)
    case _ => Silent
  }

  // ---------- one lemma per kind of step ----------

  lemma {:induction false} AddRefines(s: State, a: Action, q: nat)
    requires Inv(s) && Enabled(s, a) && a.Add? && 1 <= q <= |s.issued|
    ensures StatusOf(Next(s, a), q) == Evolve(StatusOf(s, q), q, LabelOf(s, a))
  {
    assert OneOwner(s, a.addr);
  }

  lemma {:induction false} CancelRefines(s: State, a: Action, q: nat)
    requires Inv(s) && Enabled(s, a) && a.Cancel? && 1 <= q <= |s.issued|
    ensures StatusOf(Next(s, a), q) == Evolve(StatusOf(s, q), q, LabelOf(s, a))
  {
    var addr := s.issued[q - 1];
    if a.id in s.active {
      EraseSorted(s.timers, EntryAt(s, a.id.addr));
    }
    if addr in s.heap { assert OneOwner(s, addr); }
  }

  lemma {:induction false} ExpireRefines(s: State, a: Action, q: nat)
    requires Inv(s) && Enabled(s, a) && a.Expire? && 1 <= q <= |s.issued|
    ensures StatusOf(Next(s, a), q) == Evolve(StatusOf(s, q), q, LabelOf(s, a))
  {
    SplitBatch(s);
    var addr := s.issued[q - 1];
    if addr in s.heap { assert OneOwner(s, addr); }
  }

  lemma {:induction false} RunRefines(s: State, a: Action, q: nat)
    requires Inv(s) && Enabled(s, a) && a.RunNext? && 1 <= q <= |s.issued|
    ensures StatusOf(Next(s, a), q) == Evolve(StatusOf(s, q), q, LabelOf(s, a))
  {
    var k := s.phase.ran;
    assert s.batch[..k + 1] == s.batch[..k] + [s.batch[k]];
    assert s.batch[k] in s.batch;
    var addr := s.issued[q - 1];
    if addr in s.heap { assert OneOwner(s, addr); }
    assert OneOwner(s, s.batch[k].addr);
  }

  lemma {:induction false} ResetRefines(s: State, a: Action, q: nat)
    requires Inv(s) && Enabled(s, a) && a.ResetNext? && 1 <= q <= |s.issued|
    ensures StatusOf(Next(s, a), q) == Evolve(StatusOf(s, q), q, LabelOf(s, a))
  {
    var e := s.batch[0];
    assert s.batch == [e] + s.batch[1..] && e in s.batch;
    assert OneOwner(s, e.addr);
    if q != s.heap[e.addr].sequence { ResetSparesOthers(s, a, q); }
  }

  lemma {:induction false} ResetSparesOthers(s: State, a: Action, q: nat)
    requires OwnersInv(s) && IssuedInv(s) && Enabled(s, a) && a.ResetNext? && 1 <= q <= |s.issued|
    requires q != NumberAt(s, s.batch[0]) && s.batch[0] in s.batch
    ensures StatusOf(Next(s, a), q) == StatusOf(s, q)
  {
    assert s.batch == [s.batch[0]] + s.batch[1..];
    var addr := s.issued[q - 1];
    if addr in s.heap { assert OneOwner(s, addr); }
  }

  /** Refinement: every step of the queue is the scheduler's step for every timer. */
  lemma {:induction false} QueueRefinesScheduler(s: State, a: Action, q: nat)
    requires Inv(s) && Enabled(s, a) && 1 <= q <= |s.issued|
    ensures |s.issued| <= |Next(s, a).issued|
    ensures StatusOf(Next(s, a), q) == Evolve(StatusOf(s, q), q, LabelOf(s, a))
  {
    match a
    case Add(_) => AddRefines(s, a, q);
    case Cancel(_) => CancelRefines(s, a, q);
    case Expire => ExpireRefines(s, a, q);
    case RunNext => RunRefines(s, a, q);
    case ResetNext => ResetRefines(s, a, q);
    case _ =>
      var addr := s.issued[q - 1];
      if addr in s.heap { assert OneOwner(s, addr); }
  }

  /** A new timer gets the next number and waits to be added. */
  lemma CreateWaits(s: State, a: Action)
    requires Inv(s) && Enabled(s, a) && a.Create?
    ensures var s' := Next(s, a);
      |s'.issued| == |s.issued| + 1 && StatusOf(s', |s'.issued|) == Waiting(Job(a.when, a.interval))
  {
  }

  /** The loop runs a timer only while it is due and has not run in this batch. */
  lemma {:induction false} RunsOnceEach(s: State, a: Action)
    requires Inv(s) && Enabled(s, a) && a.RunNext?
    ensures var q := LabelOf(s, a).q; 1 <= q <= |s.issued| && StatusOf(s, q).Due? && !StatusOf(s, q).ran
  {
    var k := s.phase.ran;
    assert s.batch[k] in s.batch && OneOwner(s, s.batch[k].addr);
    assert s.batch[k] !in s.batch[..k];
  }

  /** The batch ends only when every due timer has run, and `handleRead` only when all are settled. */
  lemma {:induction false} BatchCompletes(s: State, a: Action, q: nat)
    requires Inv(s) && Enabled(s, a) && 1 <= q <= |s.issued|
    ensures a.BeginReset? && StatusOf(s, q).Due? ==> StatusOf(s, q).ran
    ensures a.Rearm? ==> !StatusOf(s, q).Due?
    ensures a.Expire? ==> !StatusOf(s, q).Due?
  {
    var addr := s.issued[q - 1];
    if addr in s.heap { assert OneOwner(s, addr); }
    if a.BeginReset? { assert s.batch[..|s.batch|] == s.batch; }
  }
}
