/** Cancellation, deletion and the net effect of a whole `handleRead`, over every run. */
module TimerQueueTheorems {
  import opened Sequences
  import opened Timers
  import opened TimerQueueSpec
  import opened TimerQueueSafety
  import opened TimerQueueRefinement
  import opened Scheduler

  lemma TimerStep(s: State, a: Action, q: nat)
    requires Inv(s) && Enabled(s, a) && 1 <= q <= |s.issued|
    ensures |s.issued| <= |Next(s, a).issued|
    ensures StatusOf(Next(s, a), q) == Evolve(StatusOf(s, q), q, LabelOf(s, a))
    ensures LabelOf(s, a) == Ran(q) ==> StatusOf(s, q).Due? && !StatusOf(s, q).ran
  {
    QueueRefinesScheduler(s, a, q);
    if a.RunNext? { RunsOnceEach(s, a); }
  }

  /** How often timer number `q` runs in `acts`. */
  ghost function RunsOf(s: State, acts: seq<Action>, q: nat): nat
    requires ValidRun(s, acts)
  {
    if acts == [] then 0
    else
      var n := |acts| - 1;
      RunsOf(s, acts[..n], q) + (if LabelOf(After(s, acts[..n]), acts[n]) == Ran(q) then 1 else 0)
  }

  ghost predicate CancelledIn(acts: seq<Action>, q: nat) {
    exists k :: 0 <= k < |acts| && acts[k].Cancel? && acts[k].id.sequence == q
  }

  // ---------- cancellation ----------

  lemma {:induction false} DoomedStep(s: State, a: Action, q: nat)
    requires Inv(s) && Enabled(s, a) && 1 <= q <= |s.issued| && Doomed(StatusOf(s, q))
    ensures |s.issued| <= |Next(s, a).issued|
    ensures Doomed(StatusOf(Next(s, a), q))
    ensures RunsLeft(StatusOf(Next(s, a), q)) + (if LabelOf(s, a) == Ran(q) then 1 else 0) <= RunsLeft(StatusOf(s, q))
  {
    TimerStep(s, a, q);
  }

  lemma {:induction false} DoomedStays(s: State, acts: seq<Action>, q: nat)
    requires Inv(s) && ValidRun(s, acts) && 1 <= q <= |s.issued|
    requires Doomed(StatusOf(s, q))
    ensures |s.issued| <= |After(s, acts).issued|
    ensures Doomed(StatusOf(After(s, acts), q))
    ensures RunsOf(s, acts, q) + RunsLeft(StatusOf(After(s, acts), q)) <= RunsLeft(StatusOf(s, q))
  {
    if acts != [] {
      var n := |acts| - 1;
      DoomedStays(s, acts[..n], q);
      RunKeepsInv(s, acts[..n]);
      DoomedStep(After(s, acts[..n]), acts[n], q);
    }
  }

  lemma ActiveIsLive(s: State, id: TimerId)
    requires Inv(s) && id in s.active
    ensures 1 <= id.sequence <= |s.issued| && StatusOf(s, id.sequence).Live?
  {
    assert OneOwner(s, id.addr);
  }

  /**
   * Cancellation: once `cancelInLoop` has run for a timer already added, the timer is never indexed
   * again, and it never runs again unless it is in the batch being executed and has not run in it
   * yet, in which case it runs at most once more. This covers a timer cancelling itself and one
   * cancelled by a sibling.
   */
  lemma {:induction false} CancelIsFinal(s: State, id: TimerId, acts: seq<Action>)
    requires Inv(s) && Enabled(s, Cancel(id)) && 1 <= id.sequence && !StatusOf(s, id.sequence).Waiting?
    requires ValidRun(Next(s, Cancel(id)), acts)
    ensures var t := After(Next(s, Cancel(id)), acts); var q := id.sequence;
      && RunsOf(Next(s, Cancel(id)), acts, q) <= RunsLeft(StatusOf(s, q))
      && q <= |t.issued| && !StatusOf(t, q).Live? && !StatusOf(t, q).Waiting?
      && id !in t.active
  {
    var s', q := Next(s, Cancel(id)), id.sequence;
    StepKeepsInv(s, Cancel(id));
    CancelDooms(s, id);
    DoomedStays(s', acts, q);
    RunKeepsInv(s', acts);
    if id in After(s', acts).active { ActiveIsLive(After(s', acts), id); }
  }

  lemma {:induction false} CancelDooms(s: State, id: TimerId)
    requires Inv(s) && Enabled(s, Cancel(id)) && 1 <= id.sequence && !StatusOf(s, id.sequence).Waiting?
    ensures var s' := Next(s, Cancel(id)); var q := id.sequence;
      s'.issued == s.issued && Doomed(StatusOf(s', q)) && RunsLeft(StatusOf(s', q)) <= RunsLeft(StatusOf(s, q))
  {
    TimerStep(s, Cancel(id), id.sequence);
  }

  /** Exactly the timers that are not still waiting to be added are affected by a cancellation. */
  lemma {:induction false} CancelWorksIffAdded(s: State, id: TimerId)
    requires Inv(s) && Enabled(s, Cancel(id)) && 1 <= id.sequence
    ensures var st := StatusOf(Next(s, Cancel(id)), id.sequence);
      && (Doomed(st) <==> !StatusOf(s, id.sequence).Waiting?)
      && (StatusOf(s, id.sequence).Waiting? ==> st == StatusOf(s, id.sequence))
  {
    QueueRefinesScheduler(s, Cancel(id), id.sequence);
  }

  /** A cancellation that comes before the add, inside a batch or outside, is lost: some continuation still runs the timer. */
  lemma {:induction false} EarlyCancelIsLost(s: State, id: TimerId) returns (acts: seq<Action>)
    requires Inv(s) && Enabled(s, Cancel(id)) && 1 <= id.sequence
    requires StatusOf(s, id.sequence).Waiting?
    ensures ValidRun(Next(s, Cancel(id)), acts) && RunsOf(Next(s, Cancel(id)), acts, id.sequence) >= 1
  {
    var s', q := Next(s, Cancel(id)), id.sequence;
    StepKeepsInv(s, Cancel(id));
    TimerStep(s, Cancel(id), q);
    var rest := FinishBatch(s', q);
    RunKeepsInv(s', rest);
    var more := WaitingTimerRuns(After(s', rest), q);
    RunsConcat(s', rest, more, q);
    acts := rest + more;
  }

  lemma RunsSnoc(s: State, acts: seq<Action>, a: Action, q: nat)
    requires ValidRun(s, acts) && Enabled(After(s, acts), a)
    ensures ValidRun(s, acts + [a])
    ensures RunsOf(s, acts + [a], q) == RunsOf(s, acts, q) + (if LabelOf(After(s, acts), a) == Ran(q) then 1 else 0)
  {
    Extend(s, acts, a);
    assert (acts + [a])[..|acts|] == acts;
  }

  lemma {:induction false} RunsConcat(s: State, a: seq<Action>, b: seq<Action>, q: nat)
    requires ValidRun(s, a) && ValidRun(After(s, a), b)
    ensures ValidRun(s, a + b) && RunsOf(s, a + b, q) >= RunsOf(After(s, a), b, q)
  {
    if b == [] {
      assert a + b == a;
    } else {
      var front, last := b[..|b| - 1], b[|b| - 1];
      RunsConcat(s, a, front, q);
      Concat(s, a, front);
      RunsSnoc(s, a + front, last, q);
      SnocConcat(a, b);
    }
  }

  /** How far a batch is from its end. */
  function Remaining(s: State): nat
    requires s.phase.Calling? ==> s.phase.ran <= |s.batch|
  {
    match s.phase
    case Idle => 0
    case Calling(_, ran) => 2 * |s.batch| - ran + 2
    case Resetting(_) => |s.batch| + 1
  }

  /** The next step of a batch in which no callback does anything. */
  function BatchStep(s: State): Action {
    if s.phase.Calling? then (if s.phase.ran < |s.batch| then RunNext else BeginReset)
    else if s.batch != [] then ResetNext else Rearm
  }

  /** A batch can be finished, and a timer still waiting to be added stays so. */
  lemma {:induction false} FinishBatch(s: State, q: nat) returns (acts: seq<Action>)
    requires Inv(s) && 1 <= q <= |s.issued| && StatusOf(s, q).Waiting?
    ensures ValidRun(s, acts)
    ensures var t := After(s, acts); t.phase.Idle? && q <= |t.issued| && StatusOf(t, q).Waiting?
    decreases Remaining(s)
  {
    if s.phase.Idle? {
      acts := [];
    } else {
      var a := BatchStep(s);
      StepKeepsInv(s, a);
      TimerStep(s, a, q);
      ShrinksBatch(s);
      var rest := FinishBatch(Next(s, a), q);
      OneStep(s, a);
      Concat(s, [a], rest);
      acts := [a] + rest;
    }
  }

  lemma ShrinksBatch(s: State)
    requires Inv(s) && !s.phase.Idle? && Enabled(s, BatchStep(s)) && Inv(Next(s, BatchStep(s)))
    ensures Remaining(Next(s, BatchStep(s))) < Remaining(s)
  {
  }

  lemma {:induction false} WaitingTimerRuns(s: State, q: nat) returns (acts: seq<Action>)
    requires Inv(s) && s.phase.Idle? && 1 <= q <= |s.issued| && StatusOf(s, q).Waiting?
    ensures ValidRun(s, acts) && RunsOf(s, acts, q) >= 1
  {
    var a, due := s.issued[q - 1], StatusOf(s, q).job.due;
    var wait := Tick(if due > s.clock then due - s.clock else 0);
    var k := DueAfterWait(s, q, wait);
    ThreeSteps(s, Add(a), wait, Expire);
    acts := RunUntil(s, [Add(a), wait, Expire], k, q);
  }

  /** Once added, a waiting timer is in the batch that starts when its time has come. */
  lemma {:induction false} DueAfterWait(s: State, q: nat, wait: Action) returns (k: nat)
    requires Inv(s) && s.phase.Idle? && 1 <= q <= |s.issued| && StatusOf(s, q).Waiting?
    requires wait.Tick? && s.clock + wait.micros >= StatusOf(s, q).job.due
    ensures Enabled(s, Add(s.issued[q - 1]))
    ensures var t := Next(Next(Next(s, Add(s.issued[q - 1])), wait), Expire);
      t.phase.Calling? && t.phase.ran == 0 && k < |t.batch| && NumberAt(t, t.batch[k]) == q
  {
    var a, job := s.issued[q - 1], StatusOf(s, q).job;
    StepKeepsInv(s, Add(a));
    TimerStep(s, Add(a), q);
    LiveThenDue(Next(s, Add(a)), q, wait, job);
    k := BatchPosition(Next(Next(Next(s, Add(a)), wait), Expire), q);
  }

  lemma {:induction false} LiveThenDue(s: State, q: nat, wait: Action, job: Job)
    requires Inv(s) && s.phase.Idle? && 1 <= q <= |s.issued| && StatusOf(s, q) == Live(job)
    requires wait.Tick? && s.clock + wait.micros >= job.due
    ensures var t := Next(Next(s, wait), Expire);
      Inv(t) && t.issued == s.issued && t.phase == Calling(s.clock + wait.micros, 0) && StatusOf(t, q).Due?
  {
    StepKeepsInv(s, wait);
    TimerStep(s, wait, q);
    StepKeepsInv(Next(s, wait), Expire);
    TimerStep(Next(s, wait), Expire, q);
  }

  lemma BatchPosition(s: State, q: nat) returns (k: nat)
    requires Inv(s) && 1 <= q <= |s.issued| && StatusOf(s, q).Due?
    ensures k < |s.batch| && NumberAt(s, s.batch[k]) == q
  {
    var a := s.issued[q - 1];
    assert OneOwner(s, a);
    k :| 0 <= k < |s.batch| && s.batch[k] == EntryAt(s, a);
  }

  lemma ThreeSteps(s: State, a: Action, b: Action, c: Action)
    requires Enabled(s, a) && Enabled(Next(s, a), b) && Enabled(Next(Next(s, a), b), c)
    ensures ValidRun(s, [a, b, c]) && After(s, [a, b, c]) == Next(Next(Next(s, a), b), c)
  {
    TwoSteps(s, a, b);
    Extend(s, [a, b], c);
    assert [a, b, c] == [a, b] + [c];
  }

  /** Running the batch one timer at a time reaches the k-th. */
  lemma {:induction false} RunUntil(s: State, before: seq<Action>, k: nat, q: nat) returns (acts: seq<Action>)
    requires ValidRun(s, before)
    requires var t := After(s, before);
      t.phase.Calling? && t.phase.ran <= k < |t.batch| && NumberAt(t, t.batch[k]) == q
    ensures ValidRun(s, acts) && RunsOf(s, acts, q) >= 1
    decreases k - After(s, before).phase.ran
  {
    var t := After(s, before);
    Extend(s, before, RunNext);
    assert (before + [RunNext])[..|before|] == before;
    if t.phase.ran == k {
      acts := before + [RunNext];
    } else {
      acts := RunUntil(s, before + [RunNext], k, q);
    }
  }

  // ---------- deletion ----------

  /** A deleted timer stays deleted, even when its address is used again. */
  lemma {:induction false} DeletedForGood(s: State, acts: seq<Action>, q: nat)
    requires Inv(s) && ValidRun(s, acts) && 1 <= q <= |s.issued| && StatusOf(s, q).Deleted?
    ensures |s.issued| <= |After(s, acts).issued|
    ensures StatusOf(After(s, acts), q).Deleted? && RunsOf(s, acts, q) == 0
    ensures forall a :: a in After(s, acts).heap ==> After(s, acts).heap[a].sequence != q
  {
    DoomedStays(s, acts, q);
    DeletedStays(s, acts, q);
    RunKeepsInv(s, acts);
  }

  lemma {:induction false} DeletedStays(s: State, acts: seq<Action>, q: nat)
    requires Inv(s) && ValidRun(s, acts) && 1 <= q <= |s.issued| && StatusOf(s, q).Deleted?
    ensures |s.issued| <= |After(s, acts).issued|
    ensures StatusOf(After(s, acts), q).Deleted?
  {
    if acts != [] {
      var n := |acts| - 1;
      DeletedStays(s, acts[..n], q);
      RunKeepsInv(s, acts[..n]);
      TimerStep(After(s, acts[..n]), acts[n], q);
    }
  }

  // ---------- a whole handleRead ----------

  /** `acts` is one `handleRead` up to some point: it starts the batch and does not end it. */
  ghost predicate WithinOneBatch(acts: seq<Action>) {
    acts != [] && acts[0].Expire? && forall k :: 1 <= k < |acts| ==> !acts[k].Expire? && !acts[k].Rearm?
  }

  /** Where a timer that was due stands inside the batch. */
  ghost predicate DueProgress(t: State, q: nat, job: Job, now: int, runs: nat, cancelled: bool)
    requires 1 <= q <= |t.issued|
  {
    var st := StatusOf(t, q);
    match t.phase
    case Calling(now', _) =>
      now' == now && st == Due(job, runs == 1, cancelled) && runs <= 1
    case Resetting(now') =>
      now' == now && runs == 1 && (st == Due(job, true, cancelled) || st == Settle(job, cancelled, now))
    case Idle => false
  }

  lemma {:induction false} DueStep(t: State, a: Action, q: nat, job: Job, now: int, runs: nat, cancelled: bool)
    requires Inv(t) && Enabled(t, a) && 1 <= q <= |t.issued| && !a.Expire? && !a.Rearm?
    requires DueProgress(t, q, job, now, runs, cancelled)
    ensures |t.issued| <= |Next(t, a).issued|
    ensures DueProgress(Next(t, a), q, job, now, runs + (if LabelOf(t, a) == Ran(q) then 1 else 0),
                        cancelled || (a.Cancel? && a.id.sequence == q))
  {
    TimerStep(t, a, q);
    BatchCompletes(t, a, q);
  }

  lemma CancelledInLast(acts: seq<Action>, q: nat)
    requires acts != []
    ensures var n := |acts| - 1;
      CancelledIn(acts, q) <==> CancelledIn(acts[..n], q) || (acts[n].Cancel? && acts[n].id.sequence == q)
  {
    var n := |acts| - 1;
    if CancelledIn(acts[..n], q) {
      var k :| 0 <= k < n && acts[..n][k].Cancel? && acts[..n][k].id.sequence == q;
      assert acts[k].Cancel? && acts[k].id.sequence == q;
    }
    if CancelledIn(acts, q) && !(acts[n].Cancel? && acts[n].id.sequence == q) {
      var k :| 0 <= k < |acts| && acts[k].Cancel? && acts[k].id.sequence == q;
      assert acts[..n][k].Cancel? && acts[..n][k].id.sequence == q;
    }
  }

  lemma {:induction false} DueThroughBatch(s: State, acts: seq<Action>, q: nat, job: Job)
    requires Inv(s) && ValidRun(s, acts) && WithinOneBatch(acts) && 1 <= q <= |s.issued|
    requires StatusOf(s, q) == Live(job) && job.due <= s.clock
    ensures |s.issued| <= |After(s, acts).issued|
    ensures DueProgress(After(s, acts), q, job, s.clock, RunsOf(s, acts, q), CancelledIn(acts, q))
  {
    var n := |acts| - 1;
    CancelledInLast(acts, q);
    if n == 0 {
      assert acts[..0] == [];
      TimerStep(s, Expire, q);
    } else {
      DueThroughBatch(s, acts[..n], q, job);
      var t := After(s, acts[..n]);
      RunKeepsInv(s, acts[..n]);
      DueStep(t, acts[n], q, job, s.clock, RunsOf(s, acts[..n], q), CancelledIn(acts[..n], q));
    }
  }

  /**
   * A whole `handleRead`, with any callbacks in between: every timer due at its start runs exactly
   * once, and afterwards it is scheduled one interval after that start if it repeats and no callback
   * cancelled it, and deleted otherwise.
   */
  lemma {:induction false} DueTimersRunOnce(s: State, acts: seq<Action>, q: nat, job: Job)
    requires Inv(s) && |acts| >= 2 && ValidRun(s, acts) && 1 <= q <= |s.issued|
    requires WithinOneBatch(acts[..|acts| - 1]) && acts[|acts| - 1].Rearm?
    requires StatusOf(s, q) == Live(job) && job.due <= s.clock
    ensures RunsOf(s, acts, q) == 1 && |s.issued| <= |After(s, acts).issued|
    ensures StatusOf(After(s, acts), q) ==
      if job.interval > 0.0 && !CancelledIn(acts, q) then Live(Job(AddTime(s.clock, job.interval), job.interval))
      else Deleted
  {
    var n := |acts| - 1;
    DueThroughBatch(s, acts[..n], q, job);
    RunKeepsInv(s, acts[..n]);
    var t := After(s, acts[..n]);
    QueueRefinesScheduler(t, Rearm, q);
    BatchCompletes(t, Rearm, q);
    CancelledInLast(acts, q);
  }

  lemma {:induction false} LaterStep(s: State, a: Action, q: nat, job: Job)
    requires Inv(s) && Enabled(s, a) && 1 <= q <= |s.issued| && !a.Expire?
    requires StatusOf(s, q) == Live(job) || StatusOf(s, q) == Deleted
    ensures |s.issued| <= |Next(s, a).issued| && LabelOf(s, a) != Ran(q)
    ensures StatusOf(Next(s, a), q) == if a.Cancel? && a.id.sequence == q then Deleted else StatusOf(s, q)
  {
    TimerStep(s, a, q);
  }

  lemma {:induction false} LaterThroughBatch(s: State, acts: seq<Action>, q: nat, job: Job)
    requires Inv(s) && ValidRun(s, acts) && WithinOneBatch(acts) && 1 <= q <= |s.issued|
    requires StatusOf(s, q) == Live(job) && job.due > s.clock
    ensures |s.issued| <= |After(s, acts).issued|
    ensures RunsOf(s, acts, q) == 0
    ensures StatusOf(After(s, acts), q) == if CancelledIn(acts, q) then Deleted else Live(job)
  {
    var n := |acts| - 1;
    CancelledInLast(acts, q);
    if n == 0 {
      assert acts[..0] == [];
      TimerStep(s, Expire, q);
    } else {
      LaterThroughBatch(s, acts[..n], q, job);
      RunKeepsInv(s, acts[..n]);
      LaterStep(After(s, acts[..n]), acts[n], q, job);
    }
  }

  /** A timer not yet due does not run, and stays as it is unless a callback cancels it. */
  lemma {:induction false} LaterTimersUntouched(s: State, acts: seq<Action>, q: nat, job: Job)
    requires Inv(s) && |acts| >= 2 && ValidRun(s, acts) && 1 <= q <= |s.issued|
    requires WithinOneBatch(acts[..|acts| - 1]) && acts[|acts| - 1].Rearm?
    requires StatusOf(s, q) == Live(job) && job.due > s.clock
    ensures RunsOf(s, acts, q) == 0 && |s.issued| <= |After(s, acts).issued|
    ensures StatusOf(After(s, acts), q) == if CancelledIn(acts, q) then Deleted else Live(job)
  {
    var n := |acts| - 1;
    LaterThroughBatch(s, acts[..n], q, job);
    RunKeepsInv(s, acts[..n]);
    QueueRefinesScheduler(After(s, acts[..n]), Rearm, q);
    CancelledInLast(acts, q);
  }
}
