/** Duplicate-free sequences, used for the intrusive lists, the wait queue and the queues of tasks. */
module Sequences {

  ghost predicate NoDup<T>(s: seq<T>) {
    forall i, j :: 0 <= i < j < |s| ==> s[i] != s[j]
  }

  ghost predicate Disjoint<T>(s: seq<T>, t: seq<T>) {
    forall x :: x in s ==> x !in t
  }

  function Elems<T(==,!new)>(s: seq<T>): set<T> {
    set x | x in s
  }

  /** The elements of `s` outside `drop`, in order. */
  function Without<T(==,!new)>(s: seq<T>, drop: set<T>): (r: seq<T>)
    ensures forall x :: x in r <==> x in s && x !in drop
    ensures |r| <= |s|
  {
    if s == [] then []
    else if s[0] in drop then Without(s[1..], drop)
    else [s[0]] + Without(s[1..], drop)
  }

  lemma {:induction false} WithoutNoDup<T(!new)>(s: seq<T>, drop: set<T>)
    requires NoDup(s)
    ensures NoDup(Without(s, drop))
  {
    if s != [] {
      WithoutNoDup(s[1..], drop);
      assert s[0] !in s[1..];
    }
  }

  /** Dropping elements never moves a survivor backwards. */
  lemma {:induction false} WithoutIndex<T(!new)>(s: seq<T>, drop: set<T>, q: nat) returns (r: nat)
    requires q < |s| && s[q] !in drop
    ensures r <= q && r < |Without(s, drop)| && Without(s, drop)[r] == s[q]
  {
    if q == 0 {
      r := 0;
    } else {
      r := WithoutIndex(s[1..], drop, q - 1);
      if s[0] !in drop { r := r + 1; }
    }
  }

  lemma {:induction false} WithoutConcat<T(!new)>(s: seq<T>, t: seq<T>, drop: set<T>)
    ensures Without(s + t, drop) == Without(s, drop) + Without(t, drop)
  {
    if s == [] {
      assert s + t == t;
    } else {
      assert (s + t)[1..] == s[1..] + t;
      WithoutConcat(s[1..], t, drop);
    }
  }

  lemma {:induction false} WithoutNothing<T(!new)>(s: seq<T>, drop: set<T>)
    requires forall x :: x in s ==> x !in drop
    ensures Without(s, drop) == s
  {
    if s != [] {
      WithoutNothing(s[1..], drop);
    }
  }

  lemma NoDupConcat<T>(s: seq<T>, t: seq<T>)
    requires NoDup(s) && NoDup(t) && Disjoint(s, t)
    ensures NoDup(s + t)
  {
    forall i, j | 0 <= i < j < |s + t| ensures (s + t)[i] != (s + t)[j] {
      if i < |s| <= j {
        assert s[i] in s && t[j - |s|] in t;
      }
    }
  }

  lemma SnocConcat<T>(s: seq<T>, t: seq<T>)
    requires t != []
    ensures s + t == (s + t[..|t| - 1]) + [t[|t| - 1]]
  {
    assert t == t[..|t| - 1] + [t[|t| - 1]];
  }
}
