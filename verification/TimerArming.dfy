/** For which timer and when the timerfd is armed, and that it is read. */
module TimerArming {
  import opened Timers
  import opened TimerQueueSpec
  import opened TimerQueueSafety

  /** The deadline for a timer at `when`, armed at `now`: at least 100 microseconds away. */
  function Deadline(when: int, now: int): int {
    if when >= now + 100 then when else now + 100
  }

  /** The timerfd has just been armed for the earliest timer of the queue. */
  predicate ArmedNow(s: State) {
    s.timers != [] && s.fd == Armed(Deadline(s.timers[0].when, s.clock), s.clock)
  }

  /**
   * Which step does what to the timerfd: an add re-arms exactly if its time is below all others, the
   * end of a batch re-arms exactly if a timer with a valid time is first, the start of a batch reads
   * an expired timer and leaves it disarmed, and no other step touches it.
   */
  lemma {:induction false} WhoArms(s: State, a: Action)
    requires Inv(s) && Enabled(s, a)
    ensures var s' := Next(s, a);
      match a
      case Add(addr) =>
        var when := s.heap[addr].expiration;
        if (forall e :: e in s.timers ==> when < e.when) then ArmedNow(s') && s'.timers[0].when == when && s'.clock == s.clock
        else s'.fd == s.fd
      case Rearm =>
        if s.timers != [] && s.timers[0].when > 0 then ArmedNow(s') && s'.timers == s.timers && s'.clock == s.clock
        else s'.fd == s.fd
      case Expire => s'.fd == if s.fd.Armed? && s.clock >= s.fd.deadline then Disarmed else s.fd
      case _ => s'.fd == s.fd
  {
    if a.Add? {
      HeadOfInsert(s.timers, EntryAt(s, a.addr));
      var when := s.heap[a.addr].expiration;
      if s.timers != [] {
        assert s.timers[0] in s.timers;
        if when < s.timers[0].when { AllLater(s.timers, when); }
      }
    }
  }

  lemma AllLater(ts: seq<Entry>, when: int)
    requires Sorted(ts) && ts != [] && when < ts[0].when
    ensures forall e :: e in ts ==> when < e.when
  {
    forall e | e in ts ensures when < e.when {
      var i :| 0 <= i < |ts| && ts[i] == e;
      if i > 0 { assert Less(ts[0], ts[i]); }
    }
  }

  /**
   * Over every run an armed timerfd was armed for the timer that was earliest at that moment: its
   * deadline is that expiration, or 100 microseconds after the arming if that is later.
   */
  lemma {:induction false} ArmedForEarliest(clock: int, acts: seq<Action>) returns (k: nat)
    requires clock > 0 && ValidRun(Init(clock), acts) && After(Init(clock), acts).fd.Armed?
    ensures k <= |acts| && ValidRun(Init(clock), acts[..k])
    ensures ArmedNow(After(Init(clock), acts[..k])) && After(Init(clock), acts[..k]).fd == After(Init(clock), acts).fd
  {
    var n := |acts| - 1;
    RunKeepsInv(Init(clock), acts[..n]);
    WhoArms(After(Init(clock), acts[..n]), acts[n]);
    if ArmedNow(After(Init(clock), acts)) {
      k := |acts|;
      assert acts[..k] == acts;
    } else {
      k := ArmedForEarliest(clock, acts[..n]);
      assert acts[..n][..k] == acts[..k];
    }
  }

  /** Times are in microseconds: whole seconds add a million each, and fractions are rounded down. */
  lemma AddTimeInMicroseconds(t: int, seconds: real)
    ensures (AddTime(t, seconds) - t) as real <= seconds * 1_000_000.0 < (AddTime(t, seconds) - t + 1) as real
    ensures forall k: int :: seconds == k as real ==> AddTime(t, seconds) == t + k * 1_000_000
  {
    forall k: int | seconds == k as real ensures AddTime(t, seconds) == t + k * 1_000_000 {
      assert seconds * 1_000_000.0 == (k * 1_000_000) as real;
    }
  }
}
