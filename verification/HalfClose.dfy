/**
 * The half-close over every run, whatever thread sends and shuts down: nothing is written after
 * shutdownWrite, which messages it cuts off, and how often it is issued.
 */
module HalfClose {
  import opened TcpConnectionSpec
  import opened TcpStream

  /** The data of the send functors in a queue, in order. */
  function Sends(q: seq<Posted>): seq<Bytes> {
    if q == [] then []
    else (if q[0].SendTask? then [q[0].data] else []) + Sends(q[1..])
  }

  function Datas(ms: seq<Message>): seq<Bytes> {
    if ms == [] then [] else Datas(ms[..|ms| - 1]) + [ms[|ms| - 1].data]
  }

  lemma DatasSnoc(ms: seq<Message>, m: Message)
    ensures Datas(ms + [m]) == Datas(ms) + [m.data]
  {
    assert (ms + [m])[..|ms|] == ms;
  }

  lemma {:induction false} SendsSnoc(q: seq<Posted>, t: Posted)
    ensures Sends(q + [t]) == Sends(q) + (if t.SendTask? then [t.data] else [])
  {
    if q == [] {
      assert q + [t] == [t];
    } else {
      SendsSnoc(q[1..], t);
      assert (q + [t])[1..] == q[1..] + [t];
    }
  }

  lemma {:induction false} SendsAre(q: seq<Posted>, d: Bytes)
    ensures d in Sends(q) <==> SendTask(d) in q
  {
    if q != [] {
      SendsAre(q[1..], d);
      assert q == [q[0]] + q[1..];
    }
  }

  // ---------- accepted messages ----------

  /** What send() accepted, on any thread. */
  ghost function Accepted(c: Conn, acts: seq<Action>): multiset<Bytes>
    requires ValidRun(c, acts)
  {
    if acts == [] then multiset{}
    else
      var n := |acts| - 1;
      var a := acts[n];
      Accepted(c, acts[..n]) + (if Accepts(After(c, acts[..n]), a) then multiset{a.data} else multiset{})
  }

  function FateOf(c: Conn, r: WriteResult): Fate {
    if c.state.Disconnected? then GaveUp
    else if !c.interest.write && c.outbuf == [] && r.Broken? then Broke
    else Taken
  }

  /** `sendInLoop` records its message once and touches neither the queue nor earlier messages. */
  lemma {:induction false} SendRecords(c: Conn, data: Bytes, r: WriteResult)
    requires CanReturn(data, r)
    ensures var c' := SendInLoop(c, data, r);
      && c'.posted == c.posted && c'.shuts == c.shuts && c'.state == c.state
      && c'.messages == c.messages + [Message(data, FateOf(c, r))]
  {
  }

  /** The oldest functor leaves the queue; the state stays. */
  lemma {:induction false} RunPops(c: Conn, r: WriteResult)
    requires Enabled(c, RunPosted(r))
    ensures var c' := RunFirst(c, r);
      && c'.posted == c.posted[1..] && c'.state == c.state
      && c'.messages == if c.posted[0].SendTask? then c.messages + [Message(c.posted[0].data, FateOf(c, r))] else c.messages
  {
    if c.posted[0].SendTask? {
      SendRecords(c.(posted := c.posted[1..]), c.posted[0].data, r);
    }
  }

  /** The messages handled and the messages queued. */
  function Known(c: Conn): multiset<Bytes> {
    multiset(Datas(c.messages)) + multiset(Sends(c.posted))
  }

  predicate Accepts(c: Conn, a: Action) {
    (a.Send? || a.PostSend?) && c.state.Connected?
  }

  lemma {:induction false} RunMovesOne(c: Conn, r: WriteResult)
    requires Enabled(c, RunPosted(r))
    ensures Known(RunFirst(c, r)) == Known(c)
  {
    RunPops(c, r);
    if c.posted[0].SendTask? {
      var d, rest := c.posted[0].data, Sends(c.posted[1..]);
      DatasSnoc(c.messages, Message(d, FateOf(c, r)));
      assert Sends(c.posted) == [d] + rest;
      assert multiset(Datas(c.messages) + [d]) + multiset(rest) == multiset(Datas(c.messages)) + multiset([d] + rest);
    }
  }

  /** All other steps leave the messages and the queue alone. */
  lemma {:induction false} OthersKeepMessages(c: Conn, a: Action)
    requires Enabled(c, a) && !Accepts(c, a) && !a.RunPosted? && !a.PostShutdown?
    ensures Next(c, a).messages == c.messages && Next(c, a).posted == c.posted
  {
  }

  lemma {:induction false} SendAddsOne(c: Conn, data: Bytes, r: WriteResult)
    requires CanReturn(data, r)
    ensures Known(SendInLoop(c, data, r)) == Known(c) + multiset{data}
  {
    SendRecords(c, data, r);
    DatasSnoc(c.messages, Message(data, FateOf(c, r)));
    assert multiset(Datas(c.messages) + [data]) == multiset(Datas(c.messages)) + multiset{data};
  }

  lemma {:induction false} PostAddsOne(c: Conn, t: Posted)
    ensures Known(c.(posted := c.posted + [t])) == Known(c) + (if t.SendTask? then multiset{t.data} else multiset{})
  {
    SendsSnoc(c.posted, t);
  }

  lemma {:induction false} AcceptedStep(c: Conn, a: Action)
    requires Enabled(c, a)
    ensures Known(Next(c, a)) == Known(c) + (if Accepts(c, a) then multiset{a.data} else multiset{})
  {
    match a
    case RunPosted(r) => RunMovesOne(c, r);
    case PostShutdown => PostAddsOne(c, ShutdownTask);
    case PostSend(data) => PostAddsOne(c, SendTask(data));
    case Send(data, r) => SendAddsOne(c, data, r);
    case _ => OthersKeepMessages(c, a);
  }

  /** Every message that send() accepted has reached `sendInLoop` exactly once or is still queued. */
  lemma {:induction false} AcceptedIsAccounted(mark: nat, acts: seq<Action>)
    requires ValidRun(New(mark), acts)
    ensures var c := After(New(mark), acts);
      Accepted(New(mark), acts) == multiset(Datas(c.messages)) + multiset(Sends(c.posted))
  {
    assert Accepted(New(mark), acts) == Known(After(New(mark), acts)) by { KnownIsAccepted(mark, acts); }
  }

  lemma {:induction false} KnownIsAccepted(mark: nat, acts: seq<Action>)
    requires ValidRun(New(mark), acts)
    ensures Accepted(New(mark), acts) == Known(After(New(mark), acts))
  {
    if acts != [] {
      var n := |acts| - 1;
      KnownIsAccepted(mark, acts[..n]);
      AcceptedStep(After(New(mark), acts[..n]), acts[n]);
    }
  }

  // ---------- the invariant ----------

  /** Functors are queued only while the connection is up, and none behind a shutdown. */
  ghost predicate QueueInv(c: Conn) {
    && (c.state.Connecting? ==> c.posted == [])
    && (c.state.Connected? ==> ShutdownTask !in c.posted)
    && (forall i :: 0 <= i < |c.posted| - 1 ==> c.posted[i].SendTask?)
  }

  /** What the first shutdownWrite fixed: `s` is its record. */
  ghost predicate Cut(c: Conn, s: Shut) {
    && (c.state.Disconnecting? || c.state.Disconnected?)
    && !c.interest.write && c.wired == s.wired && c.outbuf == s.outbuf && (!s.down ==> s.outbuf == [])
    && s.handled <= |c.messages|
    && (forall i :: s.handled <= i < |c.messages| ==> !c.messages[i].fate.Taken?)
    && Sends(s.queued) == Datas(c.messages[s.handled..]) + Sends(c.posted)
    && (s.down ==> c.state.Disconnected?)
  }

  /** A second shutdownWrite comes from a posted shutdown that the first one overtook. */
  ghost predicate Issues(c: Conn, s: Shut) {
    && (ShutdownTask in c.posted ==> ShutdownTask in s.queued)
    && |c.shuts| == 1 + (if ShutdownTask in s.queued && ShutdownTask !in c.posted then 1 else 0)
  }

  ghost predicate CutInv(c: Conn) {
    QueueInv(c) && (c.shuts != [] ==> Cut(c, c.shuts[0]) && Issues(c, c.shuts[0]))
  }

  lemma {:induction false} QueueStep(c: Conn, a: Action)
    requires QueueInv(c) && Enabled(c, a)
    ensures QueueInv(Next(c, a))
  {
    match a
    case RunPosted(r) =>
      RunPops(c, r);
      assert forall t :: t in c.posted[1..] ==> t in c.posted;
    case Send(data, r) => SendRecords(c, data, r);
    case PostSend(_) =>
    case PostShutdown =>
    case _ => OthersKeepMessages(c, a);
  }

  /** The first shutdownWrite finds what it then fixes. */
  lemma {:induction false} FirstCut(c: Conn)
    requires QueueInv(c) && StreamInv(c) && c.shuts == [] && !c.interest.write
    requires c.state.Disconnecting? || c.state.Disconnected?
    ensures CutInv(ShutdownInLoop(c))
  {
    assert c.messages[|c.messages|..] == [];
  }

  /** A send behind the half-close changes nothing but the list of messages. */
  lemma {:induction false} LateSendLoses(c: Conn, data: Bytes, r: WriteResult)
    requires r.Broken? && !c.interest.write && (c.outbuf == [] || c.state.Disconnected?)
    ensures SendInLoop(c, data, r) == c.(messages := c.messages + [Message(data, FateOf(c, r))]) && !FateOf(c, r).Taken?
  {
  }

  lemma {:induction false} CutSend(c: Conn, s: Shut, r: WriteResult)
    requires Cut(c, s) && c.posted != [] && c.posted[0].SendTask? && r.Broken?
    ensures Cut(SendInLoop(c.(posted := c.posted[1..]), c.posted[0].data, r), s)
  {
    var c1, d := c.(posted := c.posted[1..]), c.posted[0].data;
    LateSendLoses(c1, d, r);
    var m := Message(d, FateOf(c1, r));
    var ms := c.messages + [m];
    assert ms[s.handled..] == c.messages[s.handled..] + [m];
    DatasSnoc(c.messages[s.handled..], m);
    assert Datas(ms[s.handled..]) + Sends(c1.posted) == Datas(c.messages[s.handled..]) + ([d] + Sends(c1.posted));
  }

  lemma {:induction false} CutRun(c: Conn, r: WriteResult)
    requires CutInv(c) && StreamInv(c) && Enabled(c, RunPosted(r))
    ensures CutInv(RunFirst(c, r))
  {
    QueueStep(c, RunPosted(r));
    var c1 := c.(posted := c.posted[1..]);
    assert c.posted == [c.posted[0]] + c.posted[1..];
    if c.posted[0].SendTask? {
      SendRecords(c1, c.posted[0].data, r);
      if c.shuts != [] { CutSend(c, c.shuts[0], r); }
    } else {
      assert c1.posted == [];
      if c.shuts == [] && !c.interest.write { FirstCut(c1); }
    }
  }

  lemma {:induction false} CutStep(c: Conn, a: Action)
    requires CutInv(c) && StreamInv(c) && Enabled(c, a)
    ensures CutInv(Next(c, a))
  {
    QueueStep(c, a);
    match a
    case RunPosted(r) => CutRun(c, r);
    case Send(data, r) => SendRecords(c, data, r);
    case Shutdown =>
      if c.state.Connected? && !c.interest.write { FirstCut(c.(state := Disconnecting)); }
    case HandleWrite(room) => CutWrite(c, room);
    case _ =>
  }

  lemma {:induction false} CutWrite(c: Conn, room: int)
    requires CutInv(c) && StreamInv(c)
    ensures CutInv(OnWritable(c, room))
  {
    if c.interest.write && room >= |c.outbuf| && c.outbuf != [] && c.state.Disconnecting? {
      WriteKeepsStream(c.(state := Connected), room);
      FirstCut(OnWritable(c.(state := Connected), room).(state := Disconnecting));
    }
  }

  lemma {:induction false} CutHolds(mark: nat, acts: seq<Action>)
    requires ValidRun(New(mark), acts)
    ensures CutInv(After(New(mark), acts)) && StreamInv(After(New(mark), acts))
  {
    StreamRun(New(mark), acts);
    if acts != [] {
      var n := |acts| - 1;
      CutHolds(mark, acts[..n]);
      CutStep(After(New(mark), acts[..n]), acts[n]);
    }
  }

  // ---------- theorems ----------

  lemma {:induction false} ShutsStay(c: Conn, acts: seq<Action>, k: nat)
    requires ValidRun(c, acts) && k <= |acts|
    ensures ValidRun(c, acts[..k]) && After(c, acts[..k]).shuts <= After(c, acts).shuts
  {
    if k < |acts| {
      var n := |acts| - 1;
      ShutsStay(c, acts[..n], k);
      assert acts[..n][..k] == acts[..k];
      ShutsGrow(After(c, acts[..n]), acts[n]);
    } else {
      assert acts[..k] == acts;
    }
  }

  lemma {:induction false} ShutsGrow(c: Conn, a: Action)
    requires Enabled(c, a)
    ensures c.shuts <= Next(c, a).shuts
  {
  }

  /**
   * Once shutdownWrite was issued, no byte is written or buffered any more, in any run; and a
   * shutdownWrite on a connection that is not down comes after everything taken was written.
   */
  lemma {:induction false} NothingWrittenAfterHalfClose(mark: nat, acts: seq<Action>, k: nat)
    requires ValidRun(New(mark), acts) && k <= |acts|
    requires ValidRun(New(mark), acts[..k]) && After(New(mark), acts[..k]).shuts != []
    ensures var c, c0 := After(New(mark), acts), After(New(mark), acts[..k]);
      && c.wired == c0.wired && c.outbuf == c0.outbuf
      && c.shuts != [] && c.shuts[0] == c0.shuts[0]
      && (!c.shuts[0].down ==> c.outbuf == [] && c.wired == Kept(c.messages))
  {
    CutHolds(mark, acts);
    CutHolds(mark, acts[..k]);
    ShutsStay(New(mark), acts, k);
  }

  /** An accepted message stands behind the half-close: it was lost there or waits for it. */
  ghost predicate SomeCutOff(c: Conn)
    requires c.shuts != []
  {
    |c.messages| > c.shuts[0].handled || exists d :: SendTask(d) in c.posted
  }

  /**
   * The half-close cuts off exactly the messages whose send functors were queued when shutdownWrite
   * was issued: these, in order, are the ones lost since and the ones still queued, and no other
   * message can follow. So a message is cut off if and only if a send functor was queued then.
   */
  lemma {:induction false} HalfCloseCutsOffTheQueued(mark: nat, acts: seq<Action>)
    requires ValidRun(New(mark), acts) && After(New(mark), acts).shuts != []
    ensures var c := After(New(mark), acts); var s := c.shuts[0];
      && s.handled <= |c.messages|
      && (forall i :: s.handled <= i < |c.messages| ==> !c.messages[i].fate.Taken?)
      && Sends(s.queued) == Datas(c.messages[s.handled..]) + Sends(c.posted)
      && (SomeCutOff(c) <==> exists d :: SendTask(d) in s.queued)
  {
    CutHolds(mark, acts);
    var c := After(New(mark), acts);
    var s := c.shuts[0];
    HasSend(s.queued);
    HasSend(c.posted);
    DatasLength(c.messages[s.handled..]);
  }

  lemma {:induction false} DatasLength(ms: seq<Message>)
    ensures |Datas(ms)| == |ms|
    ensures forall i :: 0 <= i < |ms| ==> Datas(ms)[i] == ms[i].data
  {
    if ms != [] { DatasLength(ms[..|ms| - 1]); }
  }

  lemma HasSend(q: seq<Posted>)
    ensures Sends(q) != [] <==> exists d :: SendTask(d) in q
  {
    if Sends(q) != [] {
      assert Sends(q)[0] in Sends(q);
      SendsAre(q, Sends(q)[0]);
    }
    if d :| SendTask(d) in q {
      SendsAre(q, d);
    }
  }

  /**
   * When the queue has run empty and no earlier write broke, everything send() accepted is on the
   * wire exactly if every send functor queued at the shutdownWrite was empty.
   */
  lemma {:induction false} AllAcceptedWrittenIff(mark: nat, acts: seq<Action>)
    requires ValidRun(New(mark), acts)
    requires var c := After(New(mark), acts);
      && c.shuts != [] && !c.shuts[0].down && c.posted == []
      && forall i :: 0 <= i < |c.messages| && i < c.shuts[0].handled ==> c.messages[i].fate.Taken?
    ensures var c := After(New(mark), acts);
      && Accepted(New(mark), acts) == multiset(Datas(c.messages))
      && (c.wired == All(c.messages) <==> forall d :: SendTask(d) in c.shuts[0].queued ==> d == [])
  {
    CutHolds(mark, acts);
    AcceptedIsAccounted(mark, acts);
    var c := After(New(mark), acts);
    KeptIsAllIff(c.messages);
    LateEmptyIff(c.messages, c.shuts[0].handled, c.shuts[0].queued);
  }

  /** The messages from `k` on, which are those of the queue, are all empty exactly if the queue's are. */
  lemma {:induction false} LateEmptyIff(ms: seq<Message>, k: nat, q: seq<Posted>)
    requires k <= |ms| && Sends(q) == Datas(ms[k..])
    requires forall i :: 0 <= i < |ms| ==> (ms[i].fate.Taken? <==> i < k)
    ensures (forall m :: m in ms && !m.fate.Taken? ==> m.data == []) <==> (forall d :: SendTask(d) in q ==> d == [])
  {
    DatasLength(ms[k..]);
    if d :| SendTask(d) in q && d != [] {
      SendsAre(q, d);
      var i :| 0 <= i < |Sends(q)| && Sends(q)[i] == d;
      assert ms[k + i] in ms && ms[k + i].data == d;
    } else {
      forall m | m in ms && !m.fate.Taken? ensures m.data == [] {
        var i :| 0 <= i < |ms| && ms[i] == m;
        assert Sends(q)[i - k] == m.data;
        SendsAre(q, m.data);
      }
    }
  }

  /** A message accepted by send() on another thread and lost to a shutdown() on the loop thread. */
  lemma AcceptedSendLost(mark: nat, d: Bytes)
    ensures var acts := [Establish, PostSend(d), Shutdown, RunPosted(Broken)];
      && ValidRun(New(mark), acts) && Accepted(New(mark), acts) == multiset{d}
      && After(New(mark), acts).wired == [] && After(New(mark), acts).messages == [Message(d, Broke)]
  {
    var c := New(mark);
    Extend(c, [], Establish);
    Extend(c, [] + [Establish], PostSend(d));
    Extend(c, [] + [Establish] + [PostSend(d)], Shutdown);
    var acts := [] + [Establish] + [PostSend(d)] + [Shutdown];
    Extend(c, acts, RunPosted(Broken));
    AcceptedIsAccounted(mark, acts + [RunPosted(Broken)]);
    assert Datas([Message(d, Broke)]) == [d];
    assert acts + [RunPosted(Broken)] == [Establish, PostSend(d), Shutdown, RunPosted(Broken)];
  }

  // ---------- how often ----------

  /**
   * shutdownWrite is issued at most twice; twice exactly if a posted shutdown was still queued when
   * it was first issued and has run since.
   */
  lemma {:induction false} IssuedTwiceIff(mark: nat, acts: seq<Action>)
    requires ValidRun(New(mark), acts)
    ensures var c := After(New(mark), acts);
      && |c.shuts| <= 2
      && (|c.shuts| == 2 <==> c.shuts != [] && ShutdownTask in c.shuts[0].queued && ShutdownTask !in c.posted)
  {
    CutHolds(mark, acts);
  }

  /** Such a run: shutdown() on another thread, and the buffer drains before its functor runs. */
  lemma IssuedTwice(mark: nat)
    ensures var acts := [Establish, Send([1], Retry), PostShutdown, HandleWrite(1), RunPosted(Broken)];
      ValidRun(New(mark), acts) && |After(New(mark), acts).shuts| == 2 && After(New(mark), acts).wired == [1]
  {
    var c := New(mark);
    Extend(c, [], Establish);
    Extend(c, [] + [Establish], Send([1], Retry));
    var two := [] + [Establish] + [Send([1], Retry)];
    Extend(c, two, PostShutdown);
    OvertakenShutdown(c, two + [PostShutdown]);
    assert two + [PostShutdown] + [HandleWrite(1)] + [RunPosted(Broken)] ==
           [Establish, Send([1], Retry), PostShutdown, HandleWrite(1), RunPosted(Broken)];
  }

  lemma OvertakenShutdown(c: Conn, acts: seq<Action>)
    requires ValidRun(c, acts)
    requires var d := After(c, acts); d.state.Disconnecting? && d.interest.write && |d.outbuf| == 1 && d.posted == [ShutdownTask]
    ensures var more := acts + [HandleWrite(1)] + [RunPosted(Broken)];
      ValidRun(c, more) && After(c, more).wired == After(c, acts).wired + After(c, acts).outbuf
      && |After(c, more).shuts| == |After(c, acts).shuts| + 2
  {
    Extend(c, acts, HandleWrite(1));
    Extend(c, acts + [HandleWrite(1)], RunPosted(Broken));
  }

  // ---------- when it is issued ----------

  /**
   * A step issues shutdownWrite exactly if it is a shutdown on the loop thread of a connection that is
   * up with nothing buffered, a posted shutdown that finds nothing buffered or the connection down, or
   * a write that drains the buffer of a disconnecting connection.
   */
  lemma {:induction false} IssuedIff(c: Conn, a: Action)
    requires StreamInv(c) && Enabled(c, a)
    ensures var issues :=
        || (a.Shutdown? && c.state.Connected? && c.outbuf == [])
        || (a.RunPosted? && c.posted[0].ShutdownTask? && (c.outbuf == [] || c.state.Disconnected?))
        || (a.HandleWrite? && c.state.Disconnecting? && c.outbuf != [] && a.room >= |c.outbuf|);
      |Next(c, a).shuts| == |c.shuts| + (if issues then 1 else 0)
  {
    if a.RunPosted? && c.posted[0].SendTask? {
      SendRecords(c.(posted := c.posted[1..]), c.posted[0].data, a.result);
    }
    if a.Send? { SendRecords(c, a.data, a.result); }
  }

  /** A shutdown has taken effect on the loop. */
  ghost predicate ShutdownSeen(c: Conn, acts: seq<Action>)
    requires ValidRun(c, acts)
  {
    acts != [] &&
    (var n := |acts| - 1;
     var d, a := After(c, acts[..n]), acts[n];
     || ShutdownSeen(c, acts[..n])
     || (a.Shutdown? && d.state.Connected?)
     || (a.RunPosted? && d.posted[0].ShutdownTask?))
  }

  ghost predicate Prompt(c: Conn) {
    !c.state.Connecting? && !c.state.Connected? && (!c.state.Disconnected? ==> (c.shuts != [] <==> c.outbuf == []))
  }

  lemma {:induction false} PromptStep(c: Conn, a: Action, seen: bool)
    requires CutInv(c) && StreamInv(c) && Enabled(c, a) && CutInv(Next(c, a)) && (seen ==> Prompt(c))
    requires seen || (a.Shutdown? && c.state.Connected?) || (a.RunPosted? && c.posted[0].ShutdownTask?)
    ensures Prompt(Next(c, a))
  {
    IssuedIff(c, a);
    ShutsGrow(c, a);
    BufferEmpties(c, a);
  }

  /** Only a write empties the buffer, and only one that takes all of it. */
  lemma {:induction false} BufferEmpties(c: Conn, a: Action)
    requires StreamInv(c) && Enabled(c, a)
    ensures c.outbuf != [] && Next(c, a).outbuf == [] ==> a.HandleWrite? && a.room >= |c.outbuf| && !c.state.Disconnected?
    ensures a.RunPosted? ==> Next(c, a).state == c.state
  {
    if a.RunPosted? { RunPops(c, a.result); }
  }

  /**
   * The half-close happens, and not too early: over every run, once a shutdown took effect on the loop
   * and while the connection is not down, shutdownWrite has been issued exactly if nothing is buffered.
   */
  lemma {:induction false} ShutdownIsPrompt(mark: nat, acts: seq<Action>)
    requires ValidRun(New(mark), acts) && ShutdownSeen(New(mark), acts)
    ensures Prompt(After(New(mark), acts))
  {
    var n := |acts| - 1;
    CutHolds(mark, acts[..n]);
    CutHolds(mark, acts);
    if ShutdownSeen(New(mark), acts[..n]) { ShutdownIsPrompt(mark, acts[..n]); }
    PromptStep(After(New(mark), acts[..n]), acts[n], ShutdownSeen(New(mark), acts[..n]));
  }

  predicate OnLoopThread(a: Action) {
    !a.PostSend? && !a.PostShutdown?
  }

  ghost predicate Undisturbed(c: Conn) {
    c.posted == [] && forall s :: s in c.shuts ==> s.queued == [] && !s.down
  }

  lemma {:induction false} UndisturbedStep(c: Conn, a: Action)
    requires Undisturbed(c) && StreamInv(c) && Enabled(c, a) && OnLoopThread(a)
    ensures Undisturbed(Next(c, a))
  {
  }

  lemma {:induction false} UndisturbedRun(mark: nat, acts: seq<Action>)
    requires ValidRun(New(mark), acts) && forall a :: a in acts ==> OnLoopThread(a)
    ensures Undisturbed(After(New(mark), acts))
  {
    if acts != [] {
      var n := |acts| - 1;
      UndisturbedRun(mark, acts[..n]);
      StreamRun(New(mark), acts[..n]);
      assert acts[n] in acts;
      UndisturbedStep(After(New(mark), acts[..n]), acts[n]);
    }
  }

  /**
   * When all calls are made on the loop thread, shutdownWrite is issued at most once, after
   * everything taken was written, and every message that send() ever accepts came before it.
   */
  lemma {:induction false} GracefulOnLoopThread(mark: nat, acts: seq<Action>)
    requires ValidRun(New(mark), acts) && forall a :: a in acts ==> OnLoopThread(a)
    ensures var c := After(New(mark), acts);
      && |c.shuts| <= 1
      && Accepted(New(mark), acts) == multiset(Datas(c.messages))
      && (c.shuts != [] ==> c.shuts[0].handled == |c.messages| && c.outbuf == [] && c.wired == Kept(c.messages))
  {
    CutHolds(mark, acts);
    UndisturbedRun(mark, acts);
    AcceptedIsAccounted(mark, acts);
    UndisturbedCut(After(New(mark), acts));
  }

  lemma UndisturbedCut(c: Conn)
    requires Undisturbed(c) && CutInv(c) && StreamInv(c)
    ensures |c.shuts| <= 1 && Sends(c.posted) == []
    ensures c.shuts != [] ==> c.shuts[0].handled == |c.messages| && c.outbuf == [] && c.wired == Kept(c.messages)
  {
    if c.shuts != [] {
      assert c.shuts[0] in c.shuts;
      DatasLength(c.messages[c.shuts[0].handled..]);
    }
  }
}
