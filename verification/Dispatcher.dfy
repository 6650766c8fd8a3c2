/** `dispatch_conn_new` and `thread_libevent_process` on the shared array of worker records. */
module DispatcherImpl {
  import opened Dispatch

  class Dispatcher {
    const threads: array<Worker>
    var lastThread: int
    ghost var pending: Pending
    ghost var dispatched: seq<Item>
    ghost var closed: seq<int>
    ghost const first: nat

    ghost function View(): State
      reads this, threads
    {
      State(threads[..], lastThread, pending, dispatched, closed)
    }

    ghost predicate Valid()
      reads this, threads
    {
      Inv(View(), first)
    }

    constructor (n: nat, last: int)
      requires n > 0 && -1 <= last < n
      ensures Valid() && View() == Init(n, last) && first == First(n, last) && fresh(threads)
    {
      threads := new Worker[n](_ => NewWorker());
      lastThread, pending, dispatched, closed, first := last, Idle, [], [], First(n, last);
      new;
      assert threads[..] == Init(n, last).workers;
      assert Reached(n, last, []);
      ReachedInv(n, last, []);
    }

    /** `dispatch_conn_new` up to its write: a failed allocation closes the socket and takes no turn. */
    method PushConnection(item: Item, gotMemory: bool) returns (tid: nat)
      requires Valid() && pending.Idle?
      modifies this, threads
      ensures Valid() && View() == Next(old(View()), Push(item, gotMemory))
      ensures gotMemory ==> tid < threads.Length && pending == Pushed(tid)
    {
      StepKeepsInv(View(), first, Push(item, gotMemory));
      tid := 0;
      if !gotMemory {
        closed := closed + [item.sfd];
        return;
      }
      tid := (lastThread + 1) % threads.Length;
      lastThread := tid;
      threads[tid] := threads[tid].(queue := threads[tid].queue + [item]);
      pending, dispatched := Pushed(tid), dispatched + [item];
      assert View() == Next(old(View()), Push(item, gotMemory));
    }

    /** The write of `dispatch_conn_new`; a failure is only logged. */
    method NotifyWorker(tid: nat, written: bool)
      requires Valid() && tid < threads.Length && pending == Pushed(tid)
      modifies this`pending, threads
      ensures Valid() && View() == Next(old(View()), Notify(written))
    {
      StepKeepsInv(View(), first, Notify(written));
      if written {
        threads[tid] := threads[tid].(pipe := threads[tid].pipe + [NewConn]);
      } else {
        threads[tid] := threads[tid].(missed := threads[tid].missed + 1);
      }
      pending := Idle;
      assert View() == Next(old(View()), Notify(written));
    }

    /** `dispatch_conn_new` when no worker runs between the push and the write. */
    method DispatchConnNew(item: Item, gotMemory: bool, written: bool)
      requires Valid() && pending.Idle?
      modifies this, threads
      ensures Valid() && pending.Idle?
      ensures var s := Next(old(View()), Push(item, gotMemory));
        View() == if gotMemory then Next(s, Notify(written)) else s
    {
      var tid := PushConnection(item, gotMemory);
      if gotMemory {
        NotifyWorker(tid, written);
      }
    }

    /**
     * `thread_libevent_process`: reads one byte, or acts on an unset one if the read fails; `served`
     * is the connection it takes. Unless misreads took connections early, the NULL check on the
     * popped item never fails.
     */
    method ThreadLibeventProcess(tid: nat, readOk: bool, unset: Unset, created: bool) returns (served: seq<Item>)
      requires Valid() && Enabled(View(), if readOk then Process(tid, created) else Misread(tid, unset, created))
      modifies this`closed, threads
      ensures Valid()
      ensures View() == Next(old(View()), if readOk then Process(tid, created) else Misread(tid, unset, created))
      ensures threads[tid].taken == old(threads[tid]).taken + served && |served| <= 1
      ensures readOk && !old(threads[tid]).pipe[0].NewConn? ==> served == []
      ensures readOk && old(threads[tid]).pipe[0].NewConn? && old(threads[tid]).stray == old(threads[tid]).wasted
        ==> |served| == 1
    {
      ghost var a := if readOk then Process(tid, created) else Misread(tid, unset, created);
      StepKeepsInv(View(), first, a);
      assert Fine(View(), first, tid);
      served := [];
      var w := threads[tid];
      var buf := unset;
      if readOk {
        buf := Looks(w.pipe[0]);
        w := w.(pipe := w.pipe[1..]);
      }
      match buf {
        case Looks(NewConn) =>
          if w.queue != [] {
            served := [w.queue[0]];
            w := w.(queue := w.queue[1..], taken := w.taken + served, stray := if readOk then w.stray else w.stray + 1);
            if !created {
              closed := closed + [served[0].sfd];
            }
          } else if readOk {
            w := w.(wasted := w.wasted + 1);
          }
        case Looks(UseGranular) => w := w.(lock := Granular);
        case Looks(UseGlobal) => w := w.(lock := Global);
        case Junk =>
      }
      threads[tid] := w;
      assert View() == Next(old(View()), a);
    }
  }
}
