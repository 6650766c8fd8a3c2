/** A failing `ep_insert` leaves the tree, the file links and the lists as if it had not run. */
module EpollInsert {
  import opened Sequences
  import opened EventMasks
  import opened Epoll
  import opened EpollSafety

  /** The lists reached by the callbacks of `acts` that hit other items than `i`. */
  ghost function ByOthers(l: Lists, acts: seq<Action>, i: ItemId): Lists {
    if acts == [] then l
    else
      var a, l1 := acts[|acts| - 1], ByOthers(l, acts[..|acts| - 1], i);
      if a.Callback? && a.item != i then OnCallback(l1, a.item, a.key) else l1
  }

  lemma DropCallback(l: Lists, i: ItemId, j: ItemId, key: Mask)
    requires l.ovf.Inactive? && l.tx == []
    ensures Drop(OnCallback(l, j, key), i) == if j == i then Drop(l, i) else OnCallback(Drop(l, i), j, key)
  {
    WithoutConcat(l.rdl, [j], {i});
    assert j != i ==> Without([j], {i}) == [j];
    assert j == i ==> Without([j], {i}) == [];
  }

  predicate EndsInsert(a: Action) {
    a.InsertFail? || a.InsertEnd?
  }

  lemma {:induction false} InsertingStep(s: State, a: Action, i: ItemId)
    requires Inv(s) && Enabled(s, a) && !EndsInsert(a)
    requires s.mtx.Ctl? && s.mtx.item == i
    ensures NextMutex(s, a).Ctl? && NextMutex(s, a).item == i
    ensures Drop(NextLists(s, a), i) ==
      if a.Callback? && a.item != i then OnCallback(Drop(s.l, i), a.item, a.key) else Drop(s.l, i)
  {
    match a
    case Callback(j, key) => DropCallback(s.l, i, j, key);
    case InsertTree => assert s.l.tree + {i} - {i} == s.l.tree - {i};
    case _ =>
  }

  lemma {:induction false} WhileInserting(s: State, acts: seq<Action>, i: ItemId, events: Mask)
    requires Inv(s) && ValidRun(s, acts)
    requires acts != [] && acts[0] == InsertBegin(i, events)
    requires forall k :: 0 <= k < |acts| ==> !EndsInsert(acts[k])
    ensures var s' := After(s, acts);
      s'.mtx.Ctl? && s'.mtx.item == i && Drop(s'.l, i) == ByOthers(s.l, acts, i)
  {
    var n := |acts| - 1;
    if n == 0 {
      assert ValidRun(s, acts[..0]) && After(s, acts[..0]) == s;
      WithoutNothing(s.l.rdl, {i});
      assert Drop(After(s, acts).l, i) == s.l;
    } else {
      WhileInserting(s, acts[..n], i, events);
      RunKeepsInv(s, acts[..n]);
      InsertingStep(After(s, acts[..n]), acts[n], i);
    }
  }

  /**
   * From any reachable state, a run that begins an insert and fails it, with any callbacks, waits
   * and wakeups in between, ends with the items, tree, file links and lists that the callbacks of
   * the other items alone would have produced.
   */
  lemma {:induction false} FailedInsertInvisible(s: State, acts: seq<Action>, i: ItemId, events: Mask)
    requires Inv(s) && |acts| >= 2 && ValidRun(s, acts)
    requires acts[0] == InsertBegin(i, events) && acts[|acts| - 1] == InsertFail
    requires forall k :: 0 <= k < |acts| - 1 ==> !EndsInsert(acts[k])
    ensures After(s, acts).l == ByOthers(s.l, acts, i)
    ensures After(s, acts).mtx == Free
  {
    WhileInserting(s, acts[..|acts| - 1], i, events);
  }
}
