/**
 * The per-user watch limit of `ep_insert`: the counter is read and compared at the start and
 * incremented at the end, so eventpolls of one user that insert concurrently can overshoot.
 */
module WatchLimit {
  // epoll_watches, and the eventpolls whose insert has passed the check and not finished
  datatype State = State(watches: nat, inside: set<nat>)

  datatype Action =
    | CheckLimit(ep: nat)    // eventpoll.c:562-564, under the eventpoll's own mutex
    | Finish(ep: nat)        // eventpoll.c:676
    | Fail(ep: nat)          // any error path after the check
    | Release                // a watch is given back

  const INIT := State(0, {})

  /** `k` eventpolls exist; each mutex admits one insert at a time. */
  predicate Enabled(s: State, a: Action, k: nat) {
    match a
    case CheckLimit(ep) => ep < k && ep !in s.inside
    case Finish(ep) => ep in s.inside
    case Fail(ep) => ep in s.inside
    case Release => s.watches > 0
  }

  /** A check that fails returns -ENOSPC and changes nothing. */
  function Next(s: State, a: Action, max: nat): State
  {
    match a
    case CheckLimit(ep) => if s.watches >= max then s else s.(inside := s.inside + {ep})
    case Finish(ep) => State(s.watches + 1, s.inside - {ep})
    case Fail(ep) => s.(inside := s.inside - {ep})
    case Release => if s.watches > 0 then s.(watches := s.watches - 1) else s
  }

  ghost predicate ValidRun(s: State, acts: seq<Action>, k: nat, max: nat)
    decreases acts
  {
    acts == [] || (Enabled(s, acts[0], k) && ValidRun(Next(s, acts[0], max), acts[1..], k, max))
  }

  ghost function After(s: State, acts: seq<Action>, max: nat): State
    decreases acts
  {
    if acts == [] then s else After(Next(s, acts[0], max), acts[1..], max)
  }

  ghost predicate Inv(s: State, k: nat, max: nat) {
    && (forall ep :: ep in s.inside ==> ep < k)
    && s.watches + |s.inside| <= max + k - 1
  }

  lemma {:induction false} SubsetOfRange(s: set<nat>, k: nat)
    requires forall x :: x in s ==> x < k
    ensures |s| <= k
  {
    if k == 0 {
      assert s == {};
    } else {
      SubsetOfRange(s - {k - 1}, k - 1);
    }
  }

  lemma {:induction false} RunKeepsInv(s: State, acts: seq<Action>, k: nat, max: nat)
    requires k >= 1 && Inv(s, k, max) && ValidRun(s, acts, k, max)
    ensures Inv(After(s, acts, max), k, max)
    decreases acts
  {
    if acts != [] {
      var s' := Next(s, acts[0], max);
      SubsetOfRange(s'.inside, k);
      if acts[0].Finish? { assert s.inside == s'.inside + {acts[0].ep}; }
      if acts[0].Fail? { assert s.inside == s'.inside + {acts[0].ep}; }
      RunKeepsInv(s', acts[1..], k, max);
    }
  }

  /** In every interleaving of k eventpolls the counter stays within k - 1 of the limit. */
  lemma OvershootBound(acts: seq<Action>, k: nat, max: nat)
    requires k >= 1 && ValidRun(INIT, acts, k, max)
    ensures After(INIT, acts, max).watches <= max + k - 1
  {
    RunKeepsInv(INIT, acts, k, max);
  }

  // ---------- the bound is reached ----------

  lemma {:induction false} RunConcat(s: State, a: seq<Action>, b: seq<Action>, k: nat, max: nat)
    requires ValidRun(s, a, k, max) && ValidRun(After(s, a, max), b, k, max)
    ensures ValidRun(s, a + b, k, max) && After(s, a + b, max) == After(After(s, a, max), b, max)
    decreases a
  {
    if a == [] {
      assert a + b == b;
    } else {
      assert (a + b)[1..] == a[1..] + b;
      RunConcat(Next(s, a[0], max), a[1..], b, k, max);
    }
  }

  /** `n` inserts one after the other, all by eventpoll 0. */
  lemma {:induction false} FillUp(n: nat, k: nat, max: nat) returns (acts: seq<Action>)
    requires k >= 1 && n <= max
    ensures ValidRun(INIT, acts, k, max) && After(INIT, acts, max) == State(n, {})
  {
    if n == 0 {
      acts := [];
    } else {
      var first := FillUp(n - 1, k, max);
      var s := State(n - 1, {});
      var two := [CheckLimit(0), Finish(0)];
      var s1 := Next(s, CheckLimit(0), max);
      assert two[1..] == [Finish(0)] && s1 == State(n - 1, {0});
      assert Next(s1, Finish(0), max) == State(n, {});
      assert After(s1, [Finish(0)], max) == State(n, {});
      RunConcat(INIT, first, two, k, max);
      acts := first + two;
    }
  }

  function UpTo(j: nat): (r: set<nat>)
    ensures forall x: nat :: x in r <==> x < j
  {
    if j == 0 then {} else UpTo(j - 1) + {j - 1}
  }

  /** Eventpolls 0 to j - 1 all pass the check before any of them finishes. */
  lemma {:induction false} AllCheck(w: nat, j: nat, k: nat, max: nat) returns (acts: seq<Action>)
    requires w < max && j <= k
    ensures ValidRun(State(w, {}), acts, k, max) && After(State(w, {}), acts, max) == State(w, UpTo(j))
  {
    if j == 0 {
      acts := [];
    } else {
      var first := AllCheck(w, j - 1, k, max);
      var s := State(w, UpTo(j - 1));
      RunConcat(State(w, {}), first, [CheckLimit(j - 1)], k, max);
      acts := first + [CheckLimit(j - 1)];
    }
  }

  lemma {:induction false} AllFinish(w: nat, j: nat, k: nat, max: nat) returns (acts: seq<Action>)
    ensures ValidRun(State(w, UpTo(j)), acts, k, max) && After(State(w, UpTo(j)), acts, max) == State(w + j, {})
    decreases j
  {
    if j == 0 {
      acts := [];
    } else {
      assert UpTo(j) - {j - 1} == UpTo(j - 1);
      var rest := AllFinish(w + 1, j - 1, k, max);
      acts := [Finish(j - 1)] + rest;
      assert acts[1..] == rest;
    }
  }

  /** The bound is exact: for every k and every positive limit some interleaving reaches it. */
  lemma OvershootReached(k: nat, max: nat) returns (acts: seq<Action>)
    requires k >= 1 && max >= 1
    ensures ValidRun(INIT, acts, k, max) && After(INIT, acts, max).watches == max + k - 1
  {
    var fill := FillUp(max - 1, k, max);
    var check := AllCheck(max - 1, k, k, max);
    var finish := AllFinish(max - 1, k, k, max);
    RunConcat(INIT, fill, check, k, max);
    RunConcat(INIT, fill + check, finish, k, max);
    acts := fill + check + finish;
  }

  ghost function Finished(acts: seq<Action>): int {
    if acts == [] then 0
    else (match acts[0] case Finish(_) => 1 case Release => -1 case _ => 0) + Finished(acts[1..])
  }

  /** The counter is exact: failing inserts, early or late, leave no trace in it. */
  lemma {:induction false} CounterIsExact(s: State, acts: seq<Action>, k: nat, max: nat)
    requires ValidRun(s, acts, k, max)
    ensures After(s, acts, max).watches == s.watches + Finished(acts)
    decreases acts
  {
    if acts != [] {
      CounterIsExact(Next(s, acts[0], max), acts[1..], k, max);
    }
  }
}
