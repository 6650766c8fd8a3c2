/** Integrity of the output stream and the notifications, over every run. */
module TcpStream {
  import opened TcpConnectionSpec

  /** The messages that were written or buffered, one after the other. */
  ghost function Kept(ms: seq<Message>): Bytes {
    if ms == [] then []
    else Kept(ms[..|ms| - 1]) + (if ms[|ms| - 1].fate.Taken? then ms[|ms| - 1].data else [])
  }

  /** All messages, one after the other. */
  ghost function All(ms: seq<Message>): Bytes {
    if ms == [] then [] else All(ms[..|ms| - 1]) + ms[|ms| - 1].data
  }

  ghost predicate StreamInv(c: Conn) {
    && c.wired + c.outbuf == Kept(c.messages)
    && (!c.state.Disconnected? ==> (c.interest.write <==> c.outbuf != []))
    && (c.state.Disconnected? ==> !c.interest.write)
  }

  lemma KeptSnoc(ms: seq<Message>, m: Message)
    ensures Kept(ms + [m]) == Kept(ms) + (if m.fate.Taken? then m.data else [])
    ensures All(ms + [m]) == All(ms) + m.data
  {
    assert (ms + [m])[..|ms|] == ms;
  }

  /** Buffering the unwritten rest of a message completes the stream. */
  lemma {:induction false} BufferKeepsStream(c: Conn, rest: Bytes)
    requires c.wired + c.outbuf + rest == Kept(c.messages) && !c.state.Disconnected?
    requires c.interest.write <==> c.outbuf != []
    ensures StreamInv(Buffer(c, rest))
  {
  }

  lemma {:induction false} SendKeepsStream(c: Conn, data: Bytes, r: WriteResult)
    requires StreamInv(c) && CanReturn(data, r)
    ensures StreamInv(SendInLoop(c, data, r))
  {
    KeptSnoc(c.messages, Message(data, Taken));
    KeptSnoc(c.messages, Message(data, Broke));
    KeptSnoc(c.messages, Message(data, GaveUp));
    if !c.state.Disconnected? {
      var c1 := Record(c, data, Taken);
      if c.interest.write || r.Retry? {
        BufferKeepsStream(c1, data);
      } else if r.Wrote? {
        assert c.wired + data == c.wired + data[..r.n] + c.outbuf + data[r.n..];
        var c2 := c1.(wired := c.wired + data[..r.n]);
        BufferKeepsStream(if r.n == |data| then Enqueue(c2, WriteComplete) else c2, data[r.n..]);
      }
    }
  }

  lemma {:induction false} WriteKeepsStream(c: Conn, room: int)
    requires StreamInv(c)
    ensures StreamInv(OnWritable(c, room))
  {
    var taken := if room > |c.outbuf| then |c.outbuf| else room;
    if taken > 0 { assert c.outbuf == c.outbuf[..taken] + c.outbuf[taken..]; }
  }

  lemma {:induction false} RunKeepsStream(c: Conn, r: WriteResult)
    requires StreamInv(c) && Enabled(c, RunPosted(r))
    ensures StreamInv(RunFirst(c, r))
  {
    if c.posted[0].SendTask? { SendKeepsStream(c.(posted := c.posted[1..]), c.posted[0].data, r); }
  }

  lemma {:induction false} StreamStep(c: Conn, a: Action)
    requires StreamInv(c) && Enabled(c, a)
    ensures StreamInv(Next(c, a))
  {
    match a
    case Send(data, r) => SendKeepsStream(c, data, r);
    case RunPosted(r) => RunKeepsStream(c, r);
    case HandleWrite(room) => WriteKeepsStream(c, room);
    case _ =>
  }

  lemma {:induction false} StreamRun(c: Conn, acts: seq<Action>)
    requires StreamInv(c) && ValidRun(c, acts)
    ensures StreamInv(After(c, acts))
  {
    if acts != [] {
      var n := |acts| - 1;
      StreamRun(c, acts[..n]);
      StreamStep(After(c, acts[..n]), acts[n]);
    }
  }

  // ---------- stream integrity ----------

  lemma {:induction false} KeptIsAllIff(ms: seq<Message>)
    ensures |Kept(ms)| <= |All(ms)|
    ensures Kept(ms) == All(ms) <==> forall m :: m in ms && !m.fate.Taken? ==> m.data == []
  {
    if ms != [] {
      var front, last := ms[..|ms| - 1], ms[|ms| - 1];
      KeptIsAllIff(front);
      assert ms == front + [last];
      if !last.fate.Taken? && last.data != [] {
        assert |Kept(ms)| < |All(ms)|;
        assert last in ms;
      } else {
        assert |Kept(ms)| - |Kept(front)| == |All(ms)| - |All(front)|;
        if Kept(ms) == All(ms) {
          assert Kept(front) == Kept(ms)[..|Kept(front)|] && All(front) == All(ms)[..|All(front)|];
        }
      }
    }
  }

  /**
   * Stream integrity, for all partial writes and whatever thread sends: the bytes the socket
   * accepted followed by the output buffer are the messages in `sendInLoop` order without those
   * whose write broke or that came too late, so they are all messages exactly when every one of
   * those was empty; and a connection that is not down watches for writability exactly while bytes
   * are buffered.
   */
  lemma {:induction false} StreamIntegrity(mark: nat, acts: seq<Action>)
    requires ValidRun(New(mark), acts)
    ensures var c := After(New(mark), acts);
      && c.wired + c.outbuf == Kept(c.messages)
      && (c.wired + c.outbuf == All(c.messages) <==> forall m :: m in c.messages && !m.fate.Taken? ==> m.data == [])
      && (!c.state.Disconnected? ==> (c.interest.write <==> c.outbuf != []))
  {
    StreamRun(New(mark), acts);
    KeptIsAllIff(After(New(mark), acts).messages);
  }

  /** Nothing broke, and nothing is lost as long as the connection is not down. */
  ghost predicate NothingLost(c: Conn) {
    forall m :: m in c.messages ==> m.fate.Taken? || (m.fate.GaveUp? && c.state.Disconnected?)
  }

  /** Without a broken write every message is written or buffered, unless it runs when the connection is down. */
  lemma {:induction false} NothingLostWithoutFault(c: Conn, acts: seq<Action>)
    requires ValidRun(c, acts) && NothingLost(c)
    requires forall a :: a in acts ==> !Breaks(a)
    ensures NothingLost(After(c, acts))
  {
    if acts != [] {
      var n := |acts| - 1;
      NothingLostWithoutFault(c, acts[..n]);
      assert acts[n] in acts;
      LossStep(After(c, acts[..n]), acts[n]);
    }
  }

  predicate Breaks(a: Action) {
    (a.Send? || a.RunPosted?) && a.result.Broken?
  }

  lemma {:induction false} LossStep(c: Conn, a: Action)
    requires Enabled(c, a) && !Breaks(a) && NothingLost(c)
    ensures NothingLost(Next(c, a))
  {
    if a.RunPosted? { assert c.posted[0].SendTask? ==> Next(c, a).state == c.state; }
  }

  /** A write-complete callback is queued only by a step after which everything accepted is written. */
  lemma {:induction false} WriteCompleteMeansWritten(mark: nat, acts: seq<Action>, a: Action)
    requires ValidRun(New(mark), acts) && Enabled(After(New(mark), acts), a)
    requires var c := After(New(mark), acts); Next(c, a).notices == c.notices + [WriteComplete]
    ensures var c' := Next(After(New(mark), acts), a); c'.outbuf == [] && c'.wired == Kept(c'.messages)
  {
    StreamRun(New(mark), acts);
    StreamStep(After(New(mark), acts), a);
    NoticesOfStep(After(New(mark), acts), a);
  }

  // ---------- watermark ----------

  predicate Crosses(c: Conn, c': Conn) {
    |c.outbuf| < c.mark <= |c'.outbuf|
  }

  /** A step queues at most one notification: high water exactly at an upward crossing. */
  lemma {:induction false} NoticesOfStep(c: Conn, a: Action)
    requires StreamInv(c) && Enabled(c, a)
    ensures OneNotice(c, Next(c, a))
  {
    match a
    case Send(data, r) => NoticesOfSend(c, data, r);
    case RunPosted(r) => NoticesOfRun(c, r);
    case _ => NoticesDiffer(c.notices, |Next(c, a).outbuf|);
  }

  lemma {:induction false} NoticesOfRun(c: Conn, r: WriteResult)
    requires StreamInv(c) && Enabled(c, RunPosted(r))
    ensures OneNotice(c, RunFirst(c, r))
  {
    var c1 := c.(posted := c.posted[1..]);
    if c.posted[0].SendTask? {
      NoticesOfSend(c1, c.posted[0].data, r);
    } else {
      NoticesDiffer(c.notices, |c.outbuf|);
    }
  }

  ghost predicate OneNotice(c: Conn, c': Conn) {
    && c'.mark == c.mark
    && (c'.notices == c.notices || c'.notices == c.notices + [WriteComplete]
        || c'.notices == c.notices + [HighWater(|c'.outbuf|)])
    && (c'.notices == c.notices + [HighWater(|c'.outbuf|)] <==> Crosses(c, c'))
    && (c'.notices == c.notices + [WriteComplete] ==> c'.outbuf == [])
  }

  lemma {:induction false} NoticesOfSend(c: Conn, data: Bytes, r: WriteResult)
    requires StreamInv(c) && CanReturn(data, r)
    ensures OneNotice(c, SendInLoop(c, data, r))
  {
    NoticesDiffer(c.notices, |SendInLoop(c, data, r).outbuf|);
  }

  lemma NoticesDiffer(ns: seq<Notice>, k: nat)
    ensures ns + [HighWater(k)] != ns && ns + [WriteComplete] != ns && ns + [HighWater(k)] != ns + [WriteComplete]
  {
    assert (ns + [HighWater(k)])[|ns|] != (ns + [WriteComplete])[|ns|];
    assert |ns + [WriteComplete]| != |ns|;
  }

  ghost function HighWaters(ns: seq<Notice>): nat {
    if ns == [] then 0
    else HighWaters(ns[..|ns| - 1]) + (if ns[|ns| - 1].HighWater? then 1 else 0)
  }

  ghost function Crossings(c: Conn, acts: seq<Action>): nat
    requires ValidRun(c, acts)
  {
    if acts == [] then 0
    else
      var n := |acts| - 1;
      Crossings(c, acts[..n]) + (if Crosses(After(c, acts[..n]), After(c, acts)) then 1 else 0)
  }

  /** Over any run one high-water notification is queued per crossing of the mark from below. */
  lemma {:induction false} HighWaterPerCrossing(c: Conn, acts: seq<Action>)
    requires StreamInv(c) && ValidRun(c, acts)
    ensures HighWaters(After(c, acts).notices) == HighWaters(c.notices) + Crossings(c, acts)
    ensures After(c, acts).mark == c.mark
  {
    if acts != [] {
      var n := |acts| - 1;
      HighWaterPerCrossing(c, acts[..n]);
      StreamRun(c, acts[..n]);
      var d := After(c, acts[..n]);
      NoticesOfStep(d, acts[n]);
      HighWatersSnoc(d.notices, WriteComplete);
      HighWatersSnoc(d.notices, HighWater(|Next(d, acts[n]).outbuf|));
      NoticesDiffer(d.notices, |Next(d, acts[n]).outbuf|);
    }
  }

  lemma HighWatersSnoc(ns: seq<Notice>, x: Notice)
    ensures HighWaters(ns + [x]) == HighWaters(ns) + (if x.HighWater? then 1 else 0)
  {
    assert (ns + [x])[..|ns|] == ns;
  }

  /** Between two notifications the buffer fell below the mark. */
  lemma {:induction false} FellBelowBetween(c: Conn, acts: seq<Action>)
    requires StreamInv(c) && ValidRun(c, acts) && |c.outbuf| >= c.mark
    requires HighWaters(After(c, acts).notices) > HighWaters(c.notices)
    ensures exists k :: 0 <= k < |acts| && ValidRun(c, acts[..k]) && |After(c, acts[..k]).outbuf| < c.mark
  {
    HighWaterPerCrossing(c, acts);
    CrossingHasLow(c, acts);
  }

  lemma {:induction false} CrossingHasLow(c: Conn, acts: seq<Action>)
    requires StreamInv(c) && ValidRun(c, acts) && Crossings(c, acts) > 0
    ensures exists k :: 0 <= k < |acts| && ValidRun(c, acts[..k]) && |After(c, acts[..k]).outbuf| < c.mark
  {
    var n := |acts| - 1;
    if Crosses(After(c, acts[..n]), After(c, acts)) {
      HighWaterPerCrossing(c, acts[..n]);
      assert ValidRun(c, acts[..n]) && |After(c, acts[..n]).outbuf| < c.mark;
    } else {
      CrossingHasLow(c, acts[..n]);
      var k :| 0 <= k < n && ValidRun(c, acts[..n][..k]) && |After(c, acts[..n][..k]).outbuf| < c.mark;
      assert acts[..n][..k] == acts[..k];
    }
  }

}
