/** What each step of a connection does to its bytes, its notifications, its state and its interest. */
module TcpEffects {
  import opened TcpConnectionSpec
  import opened TcpStream
  import opened TcpEvents

  // ---------- bytes and notifications ----------

  /** What `sendInLoop` leaves of a message: bytes on the wire, bytes in the buffer, and what it notes. */
  ghost predicate Sent(c: Conn, data: Bytes, r: WriteResult, c': Conn) {
    && c'.state == c.state && c'.posted == c.posted && c'.shuts == c.shuts
    && if c.state.Disconnected? then
         c' == c.(messages := c.messages + [Message(data, GaveUp)])
       else if c.outbuf != [] then
         c'.wired == c.wired && c'.outbuf == c.outbuf + data && c'.messages == c.messages + [Message(data, Taken)]
       else
         match r
         case Wrote(n) =>
           && n <= |data| && c'.wired == c.wired + data[..n] && c'.outbuf == data[n..]
           && c'.messages == c.messages + [Message(data, Taken)]
         case Retry => c'.wired == c.wired && c'.outbuf == data && c'.messages == c.messages + [Message(data, Taken)]
         case Broken => c' == c.(messages := c.messages + [Message(data, Broke)])
  }

  lemma {:induction false} SendEffect(c: Conn, data: Bytes, r: WriteResult)
    requires StreamInv(c) && CanReturn(data, r)
    ensures Sent(c, data, r, SendInLoop(c, data, r))
  {
  }

  /** A send queues write-complete exactly if it wrote the whole message at once. */
  lemma {:induction false} SendCompletesIff(c: Conn, data: Bytes, r: WriteResult)
    requires StreamInv(c) && CanReturn(data, r)
    ensures SendInLoop(c, data, r).notices == c.notices + [WriteComplete] <==>
      !c.state.Disconnected? && c.outbuf == [] && r == Wrote(|data|)
  {
    NoticesOfSend(c, data, r);
    NoticesDiffer(c.notices, |SendInLoop(c, data, r).outbuf|);
  }

  /**
   * A write event puts on the wire exactly what write(2) takes of the buffer, and queues
   * write-complete exactly if that was the last of it.
   */
  lemma {:induction false} WriteEffect(c: Conn, room: int)
    requires StreamInv(c)
    ensures var k := if c.state.Disconnected? || room <= 0 then 0 else if room < |c.outbuf| then room else |c.outbuf|;
      var c' := OnWritable(c, room);
      && c'.wired == c.wired + c.outbuf[..k] && c'.outbuf == c.outbuf[k..]
      && c'.notices == (if k > 0 && k == |c.outbuf| then c.notices + [WriteComplete] else c.notices)
      && c'.state == c.state && c'.messages == c.messages && c'.posted == c.posted
  {
  }

  /** No other step writes, buffers or notifies. */
  lemma {:induction false} OthersWriteNothing(c: Conn, a: Action)
    requires Enabled(c, a) && !a.Send? && !a.HandleWrite? && !(a.RunPosted? && c.posted[0].SendTask?)
    ensures var c' := Next(c, a);
      c'.wired == c.wired && c'.outbuf == c.outbuf && c'.notices == c.notices && c'.messages == c.messages
  {
  }

  /** A send from the loop thread is handled now and one from another thread is queued, only on a connection that is up. */
  lemma {:induction false} SendGate(c: Conn, data: Bytes, r: WriteResult)
    requires CanReturn(data, r)
    ensures Next(c, Send(data, r)) == if c.state.Connected? then SendInLoop(c, data, r) else c
    ensures Next(c, PostSend(data)) == if c.state.Connected? then c.(posted := c.posted + [SendTask(data)]) else c
  {
  }

  // ---------- state ----------

  /** The state after a step, and the connection callback: up when it is established, down when it goes down. */
  lemma {:induction false} StateEffect(c: Conn, a: Action)
    requires Enabled(c, a)
    ensures var up := c.state.Connected? || c.state.Disconnecting?;
      Next(c, a).state ==
        (if a.Establish? then Connected
         else if (a.Shutdown? || a.PostShutdown?) && c.state.Connected? then Disconnecting
         else if (a.ForceClose? || a.ForceCloseWithDelay?) && up then Disconnecting
         else if ((a.HandleClose? || a.ForceCloseInLoop?) && up) || (a.Destroy? && c.state.Connected?) then Disconnected
         else c.state)
    ensures Next(c, a).ups == c.ups + (if a.Establish? then 1 else 0)
    ensures Next(c, a).downs == c.downs + (if Next(c, a).state.Disconnected? && !c.state.Disconnected? then 1 else 0)
  {
    if a.RunPosted? { PostedStep(c, a.result); }
  }

  // ---------- interest ----------

  predicate SetsInterest(a: Action) {
    a.Establish? || a.HandleClose? || a.ForceCloseInLoop? || a.Destroy?
  }

  lemma {:induction false} ReadStep(c: Conn, a: Action)
    requires Enabled(c, a)
    ensures Next(c, a).reading == (a.StartRead? || (!a.StopRead? && c.reading))
    ensures !SetsInterest(a) ==> Next(c, a).interest.read == (a.StartRead? || (!a.StopRead? && c.interest.read))
    ensures a.Establish? ==> Next(c, a).interest.read && Next(c, a).interest.added
    ensures Next(c, a).state.Disconnected? && !c.state.Disconnected? && !a.Destroy? ==>
      Next(c, a).interest == Interest(false, false, true)
    ensures a.Destroy? ==> Next(c, a).interest == Interest(false, false, false)
  {
    if a.RunPosted? { assert c.posted[0].ShutdownTask? ==> Next(c, a).interest == c.interest; }
  }

  /** In any state `reading_` is the last read toggle, and between the steps that set it so is the read interest. */
  lemma {:induction false} ReadInterestIsLastToggle(c: Conn, acts: seq<Action>)
    requires ValidRun(c, acts)
    ensures After(c, acts).reading == LastToggle(acts, c.reading)
    ensures (forall a :: a in acts ==> !SetsInterest(a)) ==> After(c, acts).interest.read == LastToggle(acts, c.interest.read)
  {
    if acts != [] {
      var n := |acts| - 1;
      assert forall a :: a in acts[..n] ==> a in acts;
      ReadInterestIsLastToggle(c, acts[..n]);
      assert acts[n] in acts;
      ReadStep(After(c, acts[..n]), acts[n]);
    }
  }

  // ---------- events ----------

  /** Which bits run which handler. */
  lemma EventBits(e: Event)
    ensures Closes(e) <==>
      || (PollHup in e.revents && PollIn !in e.revents)
      || ((PollIn in e.revents || PollPri in e.revents || PollRdHup in e.revents) && e.read.Eof?)
    ensures Calls(e) ==
      if (PollIn in e.revents || PollPri in e.revents || PollRdHup in e.revents) && e.read.Got? then e.ops else []
  {
  }

  /** The handlers run in this order: close, read, write; so a write event sees what the message callback sent. */
  lemma {:induction false} EventOrder(c: Conn, e: Event)
    requires WellFormed(e) && !Fails(c, e)
    ensures ValidRun(c, Steps(e))
    ensures var c1 := if PollHup in e.revents && PollIn !in e.revents then Next(c, HandleClose) else c;
      ValidRun(c1, Calls(e)) &&
      var c2 := if Closes(e) && !ClosesFirst(e.revents) then Next(c1, HandleClose) else After(c1, Calls(e));
      After(c, Steps(e)) == if PollOut in e.revents then Next(c2, HandleWrite(e.room)) else c2
  {
    EventClosesOnceIff(c, e);
    var c1 := if ClosesFirst(e.revents) then Disconnect(c) else c;
    CloseStep(c);
    assert AllHarmless(Calls(e));
    HarmlessRun(c1, Calls(e));
    var before := CloseSteps(e) + ReadSteps(e);
    CloseStep(c1);
    Concat(c, CloseSteps(e), ReadSteps(e));
    if PollOut in e.revents {
      Extend(c, before, HandleWrite(e.room));
    } else {
      assert Steps(e) == before;
    }
  }
}
