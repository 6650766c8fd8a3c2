/**
 * The simple scheduler that the timer queue implements: every timer ever created has a status and
 * nothing else exists, neither addresses nor indexes. All claims here are about one timer.
 */
module Scheduler {
  import opened Timers

  datatype Job = Job(due: int, interval: real)

  datatype Status =
    | Waiting(job: Job)                                // created, not yet added
    | Live(job: Job)                                   // scheduled
    | Due(job: Job, ran: bool, cancelled: bool)        // in the batch being executed
    | Deleted

  datatype Label =
    | Silent
    | Added(q: nat)
    | Cancelled(q: nat)
    | Expired(now: int)
    | Ran(q: nat)
    | Settled(q: nat, now: int)

  /** What a step does to timer `q`. */
  function Evolve(st: Status, q: nat, l: Label): Status {
    match l
    case Added(p) => if p == q && st.Waiting? then Live(st.job) else st
    case Cancelled(p) =>
      if p != q then st
      else if st.Live? then Deleted
      else if st.Due? then st.(cancelled := true)
      else st
    case Expired(now) => if st.Live? && st.job.due <= now then Due(st.job, false, false) else st
    case Ran(p) => if p == q && st.Due? then st.(ran := true) else st
    case Settled(p, now) => if p == q && st.Due? then Settle(st.job, st.cancelled, now) else st
    case Silent => st
  }

  /** After a batch a timer that repeats and was not cancelled is due again one interval later. */
  function Settle(job: Job, cancelled: bool, now: int): Status {
    if job.interval > 0.0 && !cancelled then Live(job.(due := AddTime(now, job.interval))) else Deleted
  }

  /** Never scheduled again. */
  predicate Doomed(st: Status) {
    st.Deleted? || (st.Due? && st.cancelled)
  }

  /** How often a doomed timer may still run. */
  function RunsLeft(st: Status): nat {
    if st.Due? && !st.ran then 1 else 0
  }
}
