/** Timer objects, ordered timer entries and the conversion to a kernel timeout. */
module Timers {

  const UINTPTR_MAX: nat := 0xFFFF_FFFF_FFFF_FFFF
  const MICROS_PER_SECOND: int := 1_000_000

  /** A timer object is neither at null nor at the sentinel. */
  predicate ValidAddr(a: nat) {
    0 < a < UINTPTR_MAX
  }

  /** `Timer`: expiration in microseconds since the epoch, interval in seconds. */
  datatype Timer = Timer(expiration: int, interval: real, sequence: nat) {
    predicate Repeat() {
      interval > 0.0
    }

    /** `Timer::restart`; a timer that does not repeat gets the invalid time. */
    function Restart(now: int): Timer {
      this.(expiration := if Repeat() then AddTime(now, interval) else 0)
    }
  }

  function AddTime(t: int, seconds: real): int {
    t + (seconds * 1000000.0).Floor
  }

  predicate ValidTime(t: int) {
    t > 0
  }

  /** An element of `timers_`, ordered by time and then by address; the sentinel is one too. */
  datatype Entry = Entry(when: int, addr: nat)

  datatype TimerId = TimerId(addr: nat, sequence: nat)

  predicate Less(e: Entry, f: Entry) {
    e.when < f.when || (e.when == f.when && e.addr < f.addr)
  }

  ghost predicate Sorted(ts: seq<Entry>) {
    forall i, j :: 0 <= i < j < |ts| ==> Less(ts[i], ts[j])
  }

  // ---------- the ordered set ----------

  /** `std::set::insert`. */
  function Insert(ts: seq<Entry>, e: Entry): (r: seq<Entry>)
    ensures forall x :: x in r <==> x in ts || x == e
    ensures |r| == |ts| + 1
  {
    if ts == [] || Less(e, ts[0]) then [e] + ts
    else [ts[0]] + Insert(ts[1..], e)
  }

  lemma {:induction false} InsertSorted(ts: seq<Entry>, e: Entry)
    requires Sorted(ts) && e !in ts
    ensures Sorted(Insert(ts, e))
  {
    if ts != [] && !Less(e, ts[0]) {
      InsertSorted(ts[1..], e);
      var r := Insert(ts[1..], e);
      forall j | 0 <= j < |r| ensures Less(ts[0], r[j]) {
        assert r[j] in r;
        if r[j] in ts[1..] {
          var k :| 0 <= k < |ts[1..]| && ts[1..][k] == r[j];
          assert Less(ts[0], ts[k + 1]);
        }
      }
    }
  }

  /** `std::set::erase` by key. */
  function Erase(ts: seq<Entry>, e: Entry): seq<Entry> {
    if ts == [] then [] else if ts[0] == e then ts[1..] else [ts[0]] + Erase(ts[1..], e)
  }

  lemma {:induction false} EraseSorted(ts: seq<Entry>, e: Entry)
    requires Sorted(ts)
    ensures Sorted(Erase(ts, e))
    ensures forall x :: x in Erase(ts, e) <==> x in ts && x != e
    ensures |Erase(ts, e)| == if e in ts then |ts| - 1 else |ts|
    ensures Erase(ts, e) != [] ==> Erase(ts, e)[0] == ts[0] || Less(ts[0], Erase(ts, e)[0])
  {
    if ts != [] {
      assert ts == [ts[0]] + ts[1..];
      assert forall x :: x in ts[1..] ==> Less(ts[0], x);
      if ts[0] != e { EraseSorted(ts[1..], e); }
    }
  }

  /** `std::set::lower_bound`: the number of entries below `e`. */
  function LowerBound(ts: seq<Entry>, e: Entry): (n: nat)
    ensures n <= |ts|
    ensures forall i :: 0 <= i < n ==> Less(ts[i], e)
    ensures n < |ts| ==> !Less(ts[n], e)
  {
    if ts == [] || !Less(ts[0], e) then 0
    else
      var n := LowerBound(ts[1..], e);
      assert forall i :: 1 <= i < n + 1 ==> ts[i] == ts[1..][i - 1];
      n + 1
  }

  /** The sentinel (now, UINTPTR_MAX) separates the due entries from the others. */
  lemma SentinelSplits(ts: seq<Entry>, now: int)
    requires Sorted(ts) && forall e :: e in ts ==> e.addr < UINTPTR_MAX
    ensures var n := LowerBound(ts, Entry(now, UINTPTR_MAX));
      && (forall i :: 0 <= i < n ==> ts[i].when <= now)
      && (forall i :: n <= i < |ts| ==> ts[i].when > now)
  {
    var n := LowerBound(ts, Entry(now, UINTPTR_MAX));
    if n < |ts| {
      assert ts[n] in ts;
      forall i | n <= i < |ts| ensures ts[i].when > now {
        if i > n { assert Less(ts[n], ts[i]); }
      }
    }
  }

  // ---------- the kernel timeout ----------

  datatype Timespec = Timespec(sec: int, nsec: int)

  /** `howMuchTimeFromNow`, reading the clock as `now`. */
  function HowMuchTimeFromNow(when: int, now: int): (ts: Timespec)
    ensures ts.sec >= 0 && 0 <= ts.nsec < 1_000_000_000
    ensures ts.sec * 1_000_000_000 + ts.nsec == 1000 * (if when - now < 100 then 100 else when - now)
    ensures ts != Timespec(0, 0)
  {
    var micros := if when - now < 100 then 100 else when - now;
    Timespec(micros / MICROS_PER_SECOND, (micros % MICROS_PER_SECOND) * 1000)
  }

  /** The timerfd: disarmed, or armed at some time for a deadline; it is readable from the deadline on. */
  datatype TimerFd = Disarmed | Armed(deadline: int, at: int) {
    predicate Readable(clock: int) {
      Armed? && clock >= deadline
    }

    /** `readTimerfd`: reading an expired one-shot timer leaves it disarmed. */
    function Read(clock: int): TimerFd {
      if Readable(clock) then Disarmed else this
    }
  }

  /** `resetTimerfd`. */
  function ResetTimerFd(when: int, now: int): (fd: TimerFd)
    ensures fd.Armed? && fd.at == now
    ensures fd.deadline == if when - now < 100 then now + 100 else when
  {
    var ts := HowMuchTimeFromNow(when, now);
    Armed(now + ts.sec * MICROS_PER_SECOND + ts.nsec / 1000, now)
  }
}
