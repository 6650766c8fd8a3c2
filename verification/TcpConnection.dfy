/** `Channel` and `TcpConnection` as objects; every method takes the step of its source function. */
module TcpConnectionImpl {
  import opened TcpConnectionSpec
  import opened TcpEvents

  const READ_EVENT: set<PollBit> := {PollIn, PollPri}
  const WRITE_EVENT: set<PollBit> := {PollOut}

  class Channel {
    var events: set<PollBit>
    var addedToLoop: bool

    ghost predicate Valid()
      reads this
    {
      events <= READ_EVENT + WRITE_EVENT
    }

    predicate IsNoneEvent()
      reads this
    {
      events == {}
    }

    predicate IsWriting()
      reads this
    {
      events * WRITE_EVENT != {}
    }

    predicate IsReading()
      reads this
    {
      events * READ_EVENT != {}
    }

    ghost function View(): Interest
      reads this
    {
      Interest(IsReading(), IsWriting(), addedToLoop)
    }

    constructor ()
      ensures Valid() && View() == Interest(false, false, false)
    {
      events, addedToLoop := {}, false;
    }

    method EnableReading()
      requires Valid()
      modifies this
      ensures Valid() && View() == old(View()).(read := true, added := true)
    {
      events := events + READ_EVENT;
      addedToLoop := true;
      assert PollIn in events;
    }

    method DisableReading()
      requires Valid()
      modifies this
      ensures Valid() && View() == old(View()).(read := false, added := true)
    {
      events := events - READ_EVENT;
      addedToLoop := true;
    }

    method EnableWriting()
      requires Valid()
      modifies this
      ensures Valid() && View() == old(View()).(write := true, added := true)
    {
      events := events + WRITE_EVENT;
      addedToLoop := true;
      assert PollOut in events;
    }

    method DisableWriting()
      requires Valid()
      modifies this
      ensures Valid() && View() == old(View()).(write := false, added := true)
    {
      events := events - WRITE_EVENT;
      addedToLoop := true;
    }

    method DisableAll()
      modifies this
      ensures Valid() && View() == Interest(false, false, true)
    {
      events := {};
      addedToLoop := true;
    }

    /** `remove`; the source asserts that no interest is left. */
    method Remove()
      requires Valid() && View().None()
      modifies this
      ensures Valid() && IsNoneEvent() && View() == old(View()).(added := false)
    {
      NoneIsEmpty(events);
      addedToLoop := false;
    }
  }

  lemma NoneIsEmpty(events: set<PollBit>)
    requires events <= READ_EVENT + WRITE_EVENT && events * READ_EVENT == {} && events * WRITE_EVENT == {}
    ensures events == {}
  {
    assert events == events * READ_EVENT + events * WRITE_EVENT;
  }

  class TcpConnection {
    const channel: Channel
    var state: ConnState
    var reading: bool
    var outputBuffer: Bytes
    var highWaterMark: nat
    var posted: seq<Posted>
    ghost var wired: Bytes
    ghost var messages: seq<Message>
    ghost var notices: seq<Notice>
    ghost var shuts: seq<Shut>
    ghost var ups: nat
    ghost var downs: nat

    ghost function View(): Conn
      reads this, channel
    {
      Conn(state, reading, channel.View(), outputBuffer, highWaterMark, posted, wired, messages, notices, shuts, ups, downs)
    }

    ghost predicate Valid()
      reads this, channel
    {
      channel.Valid()
    }

    constructor (mark: nat)
      ensures Valid() && View() == New(mark) && fresh(channel)
    {
      channel := new Channel();
      state, reading, outputBuffer, highWaterMark := Connecting, true, [], mark;
      posted, wired, messages, notices, shuts, ups, downs := [], [], [], [], [], 0, 0;
    }

    method ConnectEstablished()
      requires Valid() && state.Connecting?
      modifies this, channel
      ensures Valid() && View() == Next(old(View()), Establish)
    {
      state := Connected;
      channel.EnableReading();
      ups := ups + 1;
    }

    /** `send`: at once on the loop thread, as a queued functor on another one. */
    method SendMessage(data: Bytes, inLoopThread: bool, result: WriteResult)
      requires Valid() && CanReturn(data, result)
      modifies this, channel
      ensures Valid() && View() == Next(old(View()), if inLoopThread then Send(data, result) else PostSend(data))
    {
      if state == Connected {
        if inLoopThread {
          WriteOrBuffer(data, result);
        } else {
          posted := posted + [SendTask(data)];
        }
      }
    }

    /** The oldest functor that send or shutdown queued runs on the loop. */
    method RunFunctor(result: WriteResult)
      requires Valid() && Enabled(View(), RunPosted(result))
      modifies this, channel
      ensures Valid() && View() == Next(old(View()), RunPosted(result))
    {
      var task := posted[0];
      posted := posted[1..];
      match task
      case SendTask(data) => WriteOrBuffer(data, result);
      case ShutdownTask => ShutdownNow();
    }

    /** `sendInLoop`. */
    method WriteOrBuffer(data: Bytes, result: WriteResult)
      requires Valid() && CanReturn(data, result)
      modifies this, channel
      ensures Valid() && View() == SendInLoop(old(View()), data, result)
    {
      if state == Disconnected {
        messages := messages + [Message(data, GaveUp)];
        return;
      }
      var nwrote, fault := 0, false;
      if !channel.IsWriting() && outputBuffer == [] {
        match result
        case Wrote(n) =>
          nwrote := n;
          wired := wired + data[..n];
          if n == |data| {
            notices := notices + [WriteComplete];
          }
        case Retry =>
        case Broken =>
          fault := true;
      }
      messages := messages + [Message(data, if fault then Broke else Taken)];
      if !fault {
        Append(data[nwrote..]);
      }
    }

    /** The buffering half of `sendInLoop`. */
    method Append(rest: Bytes)
      requires Valid()
      modifies this`outputBuffer, this`notices, channel
      ensures Valid() && View() == Buffer(old(View()), rest)
    {
      if |rest| > 0 {
        var oldLen := |outputBuffer|;
        if oldLen + |rest| >= highWaterMark && oldLen < highWaterMark {
          notices := notices + [HighWater(oldLen + |rest|)];
        }
        outputBuffer := outputBuffer + rest;
        if !channel.IsWriting() {
          channel.EnableWriting();
        }
      }
    }

    /** `shutdownInLoop`. */
    method ShutdownNow()
      modifies this`shuts
      ensures View() == ShutdownInLoop(old(View()))
    {
      if !channel.IsWriting() {
        shuts := shuts + [Shut(wired, outputBuffer, |messages|, posted, state == Disconnected)];
      }
    }

    /** `shutdown`: the state changes at once on any thread, the half-close only on the loop. */
    method RequestShutdown(inLoopThread: bool)
      requires Valid()
      modifies this`state, this`shuts, this`posted
      ensures Valid() && View() == Next(old(View()), if inLoopThread then Shutdown else PostShutdown)
    {
      if state == Connected {
        state := Disconnecting;
        if inLoopThread {
          ShutdownNow();
        } else {
          posted := posted + [ShutdownTask];
        }
      }
    }

    /** `handleWrite`, when write(2) would take `room` bytes. */
    method OnWritableEvent(room: int)
      requires Valid()
      modifies this, channel
      ensures Valid() && View() == Next(old(View()), HandleWrite(room))
    {
      if channel.IsWriting() {
        var n := if room > |outputBuffer| then |outputBuffer| else room;
        if n > 0 {
          wired := wired + outputBuffer[..n];
          outputBuffer := outputBuffer[n..];
          if outputBuffer == [] {
            channel.DisableWriting();
            notices := notices + [WriteComplete];
            if state == Disconnecting {
              ShutdownNow();
            }
          }
        }
      }
    }

    /** `forceClose`; says whether `forceCloseInLoop` is queued. */
    method RequestForceClose() returns (queued: bool)
      requires Valid()
      modifies this`state
      ensures Valid() && View() == Next(old(View()), ForceClose) && queued == Live(old(View()))
    {
      queued := state == Connected || state == Disconnecting;
      if queued {
        state := Disconnecting;
      }
    }

    /** `handleClose`; the source asserts that the connection is up. */
    method OnClose()
      requires Valid() && Live(View())
      modifies this, channel
      ensures Valid() && View() == Next(old(View()), HandleClose)
    {
      state := Disconnected;
      channel.DisableAll();
      downs := downs + 1;
    }

    /** `forceCloseInLoop`; says whether the close callback ran. */
    method ForceCloseNow() returns (closed: bool)
      requires Valid()
      modifies this, channel
      ensures Valid() && View() == Next(old(View()), ForceCloseInLoop) && closed == Live(old(View()))
    {
      closed := state == Connected || state == Disconnecting;
      if closed {
        OnClose();
      }
    }

    method StartReading()
      requires Valid()
      modifies this`reading, channel
      ensures Valid() && View() == Next(old(View()), StartRead)
    {
      if !reading || !channel.IsReading() {
        channel.EnableReading();
        reading := true;
      }
    }

    method StopReading()
      requires Valid()
      modifies this`reading, channel
      ensures Valid() && View() == Next(old(View()), StopRead)
    {
      if reading || channel.IsReading() {
        channel.DisableReading();
        reading := false;
      }
    }

    method ConnectDestroyed()
      requires Valid() && Enabled(View(), Destroy)
      modifies this, channel
      ensures Valid() && View() == Next(old(View()), Destroy)
    {
      if state == Connected {
        state := Disconnected;
        channel.DisableAll();
        downs := downs + 1;
      }
      channel.Remove();
    }

    /** A call of user code from a callback. */
    method Perform(op: Action)
      requires Valid() && UserOp(op) && PossibleResult(op)
      modifies this, channel
      ensures Valid() && View() == Next(old(View()), op)
    {
      match op
      case Send(data, result) => SendMessage(data, true, result);
      case PostSend(data) => SendMessage(data, false, Retry);
      case Shutdown => RequestShutdown(true);
      case PostShutdown => RequestShutdown(false);
      case ForceClose => var _ := RequestForceClose();
      case ForceCloseWithDelay => var _ := RequestForceClose();
      case StartRead => StartReading();
      case StopRead => StopReading();
    }

    /** The calls a message callback makes. */
    method PerformAll(ops: seq<Action>)
      requires Valid() && AllHarmless(ops) && forall a :: a in ops ==> UserOp(a)
      modifies this, channel
      ensures Valid() && ValidRun(old(View()), ops) && View() == After(old(View()), ops)
    {
      for i := 0 to |ops|
        invariant Valid() && ValidRun(old(View()), ops[..i]) && View() == After(old(View()), ops[..i])
      {
        assert ops[i] in ops;
        HarmlessStep(View(), ops[i]);
        Extend(old(View()), ops[..i], ops[i]);
        assert ops[..i] + [ops[i]] == ops[..i + 1];
        Perform(ops[i]);
      }
      assert ops[..|ops|] == ops;
    }

    /** `handleRead`: the message callback, the close handler on end of file, or only a log entry. */
    method HandleRead(e: Event)
      requires Valid() && WellFormed(e) && Reads(e.revents) && (e.read.Eof? ==> Live(View()))
      modifies this, channel
      ensures Valid() && ValidRun(old(View()), ReadSteps(e)) && View() == After(old(View()), ReadSteps(e))
    {
      match e.read
      case Got => PerformAll(e.ops);
      case Eof =>
        CloseStep(View());
        OnClose();
      case ReadFailed =>
    }

    /** `handleEventWithGuard`: the handlers in the order of the source. */
    method HandleEvent(e: Event)
      requires Valid() && WellFormed(e) && !Fails(View(), e)
      modifies this, channel
      ensures Valid() && ValidRun(old(View()), Steps(e)) && View() == After(old(View()), Steps(e))
      ensures EventEffect(old(View()), e, View())
    {
      EventClosesOnceIff(View(), e);
      CloseStep(View());
      if ClosesFirst(e.revents) {
        OnClose();
      }
      ghost var closing, middle := CloseSteps(e), View();
      if Reads(e.revents) {
        HandleRead(e);
      }
      assert ValidRun(middle, ReadSteps(e)) && View() == After(middle, ReadSteps(e));
      Concat(old(View()), closing, ReadSteps(e));
      Extend(old(View()), closing + ReadSteps(e), HandleWrite(e.room));
      if PollOut in e.revents {
        OnWritableEvent(e.room);
      } else {
        assert Steps(e) == closing + ReadSteps(e);
      }
    }
  }
}
