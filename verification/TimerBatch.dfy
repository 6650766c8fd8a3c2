/**
 * A whole `handleRead` for every timer there is, was or comes to be: exactly the timers due at its
 * start run, in the order of their expirations, and what each timer is afterwards.
 */
module TimerBatch {
  import opened Timers
  import opened TimerQueueSpec
  import opened TimerQueueSafety
  import opened TimerQueueRefinement
  import opened TimerQueueTheorems
  import opened Scheduler

  lemma {:induction false} Prefix(s: State, acts: seq<Action>, k: nat)
    requires ValidRun(s, acts) && k <= |acts|
    ensures ValidRun(s, acts[..k])
    ensures k < |acts| ==> Enabled(After(s, acts[..k]), acts[k])
  {
    if k < |acts| {
      var n := |acts| - 1;
      if k < n {
        Prefix(s, acts[..n], k);
        assert acts[..n][..k] == acts[..k];
      }
    } else {
      assert acts[..k] == acts;
    }
  }

  /** A batch starts when `handleRead` was idle, so no timer is due in an older one. */
  lemma {:induction false} NoneDueAtStart(s: State, acts: seq<Action>, q: nat)
    requires Inv(s) && ValidRun(s, acts) && WithinOneBatch(acts) && 1 <= q <= |s.issued|
    ensures !StatusOf(s, q).Due?
  {
    Prefix(s, acts, 0);
    assert acts[..0] == [];
    BatchCompletes(s, Expire, q);
  }

  // ---------- timers that are new to the batch ----------

  /** Timer `q` waits to be added at the start, or does not exist yet. */
  predicate IsNew(s: State, q: nat) {
    q > |s.issued| || (1 <= q && StatusOf(s, q).Waiting?)
  }

  datatype MaybeJob = NoJob | SomeJob(job: Job)

  /** The job of a new timer, from the start or from its creation. */
  ghost function NewJob(s: State, acts: seq<Action>, q: nat): MaybeJob
    requires ValidRun(s, acts)
  {
    if acts == [] then
      if 1 <= q <= |s.issued| && StatusOf(s, q).Waiting? then SomeJob(StatusOf(s, q).job) else NoJob
    else
      var n := |acts| - 1;
      if acts[n].Create? && |After(s, acts[..n]).issued| + 1 == q then SomeJob(Job(acts[n].when, acts[n].interval))
      else NewJob(s, acts[..n], q)
  }

  ghost predicate AddedIn(s: State, acts: seq<Action>, q: nat)
    requires ValidRun(s, acts)
  {
    acts != [] &&
    (var n := |acts| - 1;
     AddedIn(s, acts[..n], q) || LabelOf(After(s, acts[..n]), acts[n]) == Added(q))
  }

  ghost predicate CancelledOnceAdded(s: State, acts: seq<Action>, q: nat)
    requires ValidRun(s, acts)
  {
    acts != [] &&
    (var n := |acts| - 1;
     CancelledOnceAdded(s, acts[..n], q) || (AddedIn(s, acts[..n], q) && LabelOf(After(s, acts[..n]), acts[n]) == Cancelled(q)))
  }

  /** A new timer after callbacks and other threads edited it. */
  function Edited(job: Job, added: bool, cancelled: bool): Status {
    if !added then Waiting(job) else if cancelled then Deleted else Live(job)
  }

  ghost predicate NewProgress(t: State, q: nat, job: MaybeJob, added: bool, cancelled: bool) {
    if q > |t.issued| then job.NoJob? && !added && !cancelled
    else 1 <= q && job.SomeJob? && (cancelled ==> added) && StatusOf(t, q) == Edited(job.job, added, cancelled)
  }

  /** Numbers in labels are numbers of timers that exist. */
  lemma {:induction false} LabelsExist(t: State, a: Action)
    requires Inv(t) && Enabled(t, a)
    ensures var l := LabelOf(t, a);
      && (l.Added? ==> l.q <= |t.issued|) && (l.Cancelled? ==> l.q <= |t.issued|) && (l.Ran? ==> l.q <= |t.issued|)
  {
    if a.RunNext? { RunsOnceEach(t, a); }
  }

  lemma {:induction false} UnbornStep(t: State, a: Action, q: nat)
    requires Inv(t) && Enabled(t, a) && q > |t.issued|
    ensures var t' := Next(t, a); var born := a.Create? && |t.issued| + 1 == q;
      && (born <==> q <= |t'.issued|) && (born ==> StatusOf(t', q) == Waiting(Job(a.when, a.interval)))
  {
    if a.Create? { CreateWaits(t, a); }
  }

  lemma {:induction false} NewStep(t: State, a: Action, q: nat, job: MaybeJob, added: bool, cancelled: bool)
    requires Inv(t) && Enabled(t, a) && !a.Expire? && NewProgress(t, q, job, added, cancelled)
    ensures LabelOf(t, a) != Ran(q)
    ensures var born := a.Create? && |t.issued| + 1 == q;
      NewProgress(Next(t, a), q, if born then SomeJob(Job(a.when, a.interval)) else job,
                  added || LabelOf(t, a) == Added(q), cancelled || (added && LabelOf(t, a) == Cancelled(q)))
  {
    LabelsExist(t, a);
    if q > |t.issued| {
      UnbornStep(t, a, q);
    } else {
      TimerStep(t, a, q);
    }
  }

  /** The start of a batch does not touch a new timer. */
  lemma {:induction false} NewAtStart(s: State, acts: seq<Action>, q: nat)
    requires Inv(s) && IsNew(s, q) && ValidRun(s, acts) && |acts| == 1 && acts[0].Expire?
    ensures RunsOf(s, acts, q) == 0
    ensures NewProgress(After(s, acts), q, NewJob(s, acts, q), AddedIn(s, acts, q), CancelledOnceAdded(s, acts, q))
  {
    var n := |acts| - 1;
    assert acts[..n] == [] && acts[n] == Expire;
    assert Enabled(After(s, acts[..n]), acts[n]) && After(s, acts[..n]) == s && After(s, acts) == Next(s, Expire);
    assert LabelOf(s, Expire) == Expired(s.clock);
    assert !AddedIn(s, acts[..n], q) && !CancelledOnceAdded(s, acts[..n], q);
    assert !AddedIn(s, acts, q) && !CancelledOnceAdded(s, acts, q) && NewJob(s, acts, q) == NewJob(s, acts[..n], q);
    if q <= |s.issued| { TimerStep(s, Expire, q); }
  }

  lemma {:induction false} NewThroughBatch(s: State, acts: seq<Action>, q: nat)
    requires Inv(s) && ValidRun(s, acts) && WithinOneBatch(acts) && IsNew(s, q)
    ensures RunsOf(s, acts, q) == 0
    ensures NewProgress(After(s, acts), q, NewJob(s, acts, q), AddedIn(s, acts, q), CancelledOnceAdded(s, acts, q))
  {
    var n := |acts| - 1;
    if n == 0 {
      NewAtStart(s, acts, q);
    } else {
      NewThroughBatch(s, acts[..n], q);
      RunKeepsInv(s, acts[..n]);
      assert NewJob(s, acts, q) ==
        (if acts[n].Create? && |After(s, acts[..n]).issued| + 1 == q then SomeJob(Job(acts[n].when, acts[n].interval))
         else NewJob(s, acts[..n], q));
      NewStep(After(s, acts[..n]), acts[n], q, NewJob(s, acts[..n], q), AddedIn(s, acts[..n], q),
              CancelledOnceAdded(s, acts[..n], q));
    }
  }

  // ---------- exactly the due timers ----------

  /** Timer `q` is scheduled at `s` and its time has come. */
  predicate IsDue(s: State, q: nat) {
    1 <= q <= |s.issued| && StatusOf(s, q).Live? && StatusOf(s, q).job.due <= s.clock
  }

  /** `acts` is one whole `handleRead`. */
  ghost predicate WholeBatch(acts: seq<Action>) {
    |acts| >= 2 && WithinOneBatch(acts[..|acts| - 1]) && acts[|acts| - 1].Rearm?
  }

  /**
   * One `handleRead` runs exactly the timers due at its start, each once: no timer that is later,
   * deleted, still waiting or created meanwhile runs, even if a callback adds it with a time already
   * past.
   */
  lemma {:induction false} BatchRunsExactlyTheDue(s: State, acts: seq<Action>, q: nat)
    requires Inv(s) && ValidRun(s, acts) && WholeBatch(acts) && q >= 1
    ensures RunsOf(s, acts, q) == if IsDue(s, q) then 1 else 0
  {
    var n := |acts| - 1;
    if IsNew(s, q) {
      NewThroughBatch(s, acts[..n], q);
    } else {
      NoneDueAtStart(s, acts[..n], q);
      match StatusOf(s, q)
      case Live(job) =>
        if job.due <= s.clock { DueTimersRunOnce(s, acts, q, job); } else { LaterTimersUntouched(s, acts, q, job); }
      case Deleted => DeletedForGood(s, acts, q);
    }
  }

  /** What one `handleRead` makes of timer `q`. */
  ghost function Outcome(s: State, acts: seq<Action>, q: nat): Status
    requires ValidRun(s, acts) && 1 <= q && (IsNew(s, q) ==> NewJob(s, acts, q).SomeJob?)
  {
    if IsNew(s, q) then Edited(NewJob(s, acts, q).job, AddedIn(s, acts, q), CancelledOnceAdded(s, acts, q))
    else if IsDue(s, q) then Settle(StatusOf(s, q).job, CancelledIn(acts, q), s.clock)
    else if StatusOf(s, q).Live? && !CancelledIn(acts, q) then StatusOf(s, q)
    else Deleted
  }

  /**
   * The schedule after one `handleRead` is the old one without the expired one-shots and the
   * cancelled timers, with the repeating ones one interval after the start, and with what callbacks
   * and other threads created, added and cancelled meanwhile.
   */
  lemma {:induction false} BatchOutcome(s: State, acts: seq<Action>, q: nat)
    requires Inv(s) && ValidRun(s, acts) && WholeBatch(acts) && 1 <= q <= |After(s, acts).issued|
    ensures IsNew(s, q) ==> NewJob(s, acts, q).SomeJob?
    ensures StatusOf(After(s, acts), q) == Outcome(s, acts, q)
  {
    var n := |acts| - 1;
    if IsNew(s, q) {
      NewThroughBatch(s, acts[..n], q);
      RunKeepsInv(s, acts[..n]);
      NewStep(After(s, acts[..n]), Rearm, q, NewJob(s, acts[..n], q), AddedIn(s, acts[..n], q),
              CancelledOnceAdded(s, acts[..n], q));
    } else {
      NoneDueAtStart(s, acts[..n], q);
      match StatusOf(s, q)
      case Live(job) =>
        if job.due <= s.clock { DueTimersRunOnce(s, acts, q, job); } else { LaterTimersUntouched(s, acts, q, job); }
      case Deleted => DeletedForGood(s, acts, q);
    }
  }

  // ---------- order ----------

  function RunCount(acts: seq<Action>): nat {
    if acts == [] then 0 else RunCount(acts[..|acts| - 1]) + (if acts[|acts| - 1].RunNext? then 1 else 0)
  }

  lemma {:induction false} RunCountGrows(acts: seq<Action>, i: nat)
    requires i < |acts| && acts[i].RunNext?
    ensures RunCount(acts[..i]) < RunCount(acts)
  {
    var n := |acts| - 1;
    if i < n {
      RunCountGrows(acts[..n], i);
      assert acts[..n][..i] == acts[..i];
    }
  }

  /** While callbacks run, the batch is the one of the start and one timer ran per step. */
  lemma {:induction false} BatchStays(s: State, acts: seq<Action>)
    requires ValidRun(s, acts) && WithinOneBatch(acts)
    ensures var t := After(s, acts);
      !t.phase.Idle? && (t.phase.Calling? ==> t.batch == StartBatch(s).batch && t.phase.ran == RunCount(acts))
  {
    var n := |acts| - 1;
    if n == 0 {
      assert acts[..0] == [];
    } else {
      BatchStays(s, acts[..n]);
    }
  }

  /** A timer that is due inside a batch was due when the batch started, with the same job. */
  lemma {:induction false} DueSinceStart(s: State, acts: seq<Action>, q: nat)
    requires Inv(s) && ValidRun(s, acts) && WithinOneBatch(acts)
    requires 1 <= q <= |After(s, acts).issued| && StatusOf(After(s, acts), q).Due?
    ensures IsDue(s, q) && StatusOf(After(s, acts), q).job == StatusOf(s, q).job
  {
    if IsNew(s, q) {
      NewThroughBatch(s, acts, q);
    } else {
      NoneDueAtStart(s, acts, q);
      match StatusOf(s, q)
      case Live(job) =>
        if job.due <= s.clock { DueThroughBatch(s, acts, q, job); } else { LaterThroughBatch(s, acts, q, job); }
      case Deleted => DeletedStays(s, acts, q);
    }
  }

  /** The timer that runs at step `i` is the entry of the batch that the earlier runs lead to. */
  lemma {:induction false} RunAt(s: State, acts: seq<Action>, i: nat, q: nat)
    requires Inv(s) && ValidRun(s, acts) && WithinOneBatch(acts) && i < |acts|
    requires ValidRun(s, acts[..i]) && Enabled(After(s, acts[..i]), acts[i])
    requires LabelOf(After(s, acts[..i]), acts[i]) == Ran(q)
    ensures acts[i].RunNext? && IsDue(s, q)
    ensures var batch, k := StartBatch(s).batch, RunCount(acts[..i]);
      k < |batch| && batch[k].when == StatusOf(s, q).job.due
  {
    var u := After(s, acts[..i]);
    RunKeepsInv(s, acts[..i]);
    BatchStays(s, acts[..i]);
    RunsOnceEach(u, acts[i]);
    DueSinceStart(s, acts[..i], q);
    var e := u.batch[u.phase.ran];
    assert e in u.batch && OneOwner(u, e.addr);
  }

  /** Timers of one `handleRead` run in nondecreasing order of the expirations they had at its start. */
  lemma {:induction false} RunsInExpirationOrder(s: State, acts: seq<Action>, i: nat, j: nat, q: nat, r: nat)
    requires Inv(s) && ValidRun(s, acts) && WithinOneBatch(acts) && i < j < |acts|
    requires ValidRun(s, acts[..i]) && Enabled(After(s, acts[..i]), acts[i])
    requires ValidRun(s, acts[..j]) && Enabled(After(s, acts[..j]), acts[j])
    requires LabelOf(After(s, acts[..i]), acts[i]) == Ran(q) && LabelOf(After(s, acts[..j]), acts[j]) == Ran(r)
    ensures IsDue(s, q) && IsDue(s, r) && StatusOf(s, q).job.due <= StatusOf(s, r).job.due
  {
    RunAt(s, acts, i, q);
    RunAt(s, acts, j, r);
    assert acts[..j][..i] == acts[..i];
    RunCountGrows(acts[..j], i);
    SplitBatch(s);
    assert Less(StartBatch(s).batch[RunCount(acts[..i])], StartBatch(s).batch[RunCount(acts[..j])]);
  }
}
