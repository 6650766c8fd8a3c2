/** `Channel::handleEventWithGuard` over the handlers of `TcpConnection`, and how the state moves. */
module TcpEvents {
  import opened Sequences
  import opened TcpConnectionSpec

  datatype PollBit = PollIn | PollPri | PollOut | PollErr | PollHup | PollNval | PollRdHup

  datatype ReadResult = Got | Eof | ReadFailed

  /** One poll event: the bits, the result of read(2), the message callback's calls, the room for write(2). */
  datatype Event = Event(revents: set<PollBit>, read: ReadResult, ops: seq<Action>, room: int)

  /** The close handler runs first when the peer hung up and nothing is left to read. */
  predicate ClosesFirst(revents: set<PollBit>) {
    PollHup in revents && PollIn !in revents
  }

  predicate Reads(revents: set<PollBit>) {
    PollIn in revents || PollPri in revents || PollRdHup in revents
  }

  /** What user code may call, from a callback on the loop thread or meanwhile on another thread. */
  predicate UserOp(a: Action) {
    || a.Send? || a.PostSend? || a.Shutdown? || a.PostShutdown?
    || a.ForceClose? || a.ForceCloseWithDelay? || a.StartRead? || a.StopRead?
  }

  predicate PossibleResult(a: Action) {
    a.Send? ==> CanReturn(a.data, a.result)
  }

  /** The message callback may call anything. */
  ghost predicate WellFormed(e: Event) {
    forall a :: a in e.ops ==> UserOp(a) && PossibleResult(a)
  }

  /** The handlers in the order the channel calls them, as steps of the connection. */
  function Steps(e: Event): seq<Action> {
    CloseSteps(e) + ReadSteps(e) + (if PollOut in e.revents then [HandleWrite(e.room)] else [])
  }

  function CloseSteps(e: Event): seq<Action> {
    if ClosesFirst(e.revents) then [HandleClose] else []
  }

  function ReadSteps(e: Event): seq<Action> {
    if !Reads(e.revents) then []
    else match e.read
      case Got => e.ops
      case Eof => [HandleClose]
      case ReadFailed => []
  }

  predicate Live(c: Conn) {
    c.state.Connected? || c.state.Disconnecting?
  }

  /** The close handler and an end-of-file read in one event. */
  predicate ClosesTwice(e: Event) {
    ClosesFirst(e.revents) && Reads(e.revents) && e.read.Eof?
  }

  /** The event runs the close handler. */
  predicate Closes(e: Event) {
    ClosesFirst(e.revents) || (Reads(e.revents) && e.read.Eof?)
  }

  /** The event fails the assert in `handleClose`: it closes twice, or it closes a connection that is not up. */
  predicate Fails(c: Conn, e: Event) {
    if Live(c) then ClosesTwice(e) else Closes(e)
  }

  // ---------- the state only moves forward ----------

  function Rank(s: ConnState): nat {
    match s
    case Connecting => 0
    case Connected => 1
    case Disconnecting => 2
    case Disconnected => 3
  }

  lemma {:induction false} StateOnlyAdvances(c: Conn, acts: seq<Action>)
    requires ValidRun(c, acts)
    ensures Rank(After(c, acts).state) >= Rank(c.state)
  {
    if acts != [] {
      var n := |acts| - 1;
      StateOnlyAdvances(c, acts[..n]);
      AdvanceStep(After(c, acts[..n]), acts[n]);
    }
  }

  lemma {:induction false} AdvanceStep(c: Conn, a: Action)
    requires Enabled(c, a)
    ensures Rank(Next(c, a).state) >= Rank(c.state)
  {
  }

  // ---------- one event ----------

  predicate Harmless(a: Action) {
    UserOp(a) || a.HandleWrite?
  }

  /** A channel with interest is on the poller. */
  predicate Registered(c: Conn) {
    !c.interest.None() ==> c.interest.added
  }

  /** The last call of startRead or stopRead in `acts`, if any, or else `before`. */
  predicate LastToggle(acts: seq<Action>, before: bool) {
    if acts == [] then before
    else
      var a := acts[|acts| - 1];
      a.StartRead? || (!a.StopRead? && LastToggle(acts[..|acts| - 1], before))
  }

  /**
   * What user calls and writes do to the life cycle: nothing, and on a connection that is not up
   * they bring back no interest but that of startRead.
   */
  ghost predicate Calm(c: Conn, acts: seq<Action>, c': Conn) {
    && (Live(c) <==> Live(c')) && (c.state.Disconnected? <==> c'.state.Disconnected?)
    && c'.ups == c.ups && c'.downs == c.downs
    && (c.interest.added ==> c'.interest.added) && (Registered(c) ==> Registered(c'))
    && (!Live(c) && !c.interest.write ==> !c'.interest.write)
    && (c.state.Disconnected? ==> c'.interest.read == LastToggle(acts, c.interest.read))
    && (!Live(c) && c'.interest.read ==> c.interest.read || StartRead in acts)
    && (c.state.Connecting? && c.posted == [] ==> c'.posted == [])
  }

  lemma {:induction false} HarmlessStep(c: Conn, a: Action)
    requires Harmless(a) && PossibleResult(a)
    ensures Enabled(c, a) && Calm(c, [a], Next(c, a))
  {
    assert [a][..0] == [];
  }

  /** A posted functor does not touch the life cycle either. */
  lemma {:induction false} PostedStep(c: Conn, r: WriteResult)
    requires Enabled(c, RunPosted(r))
    ensures var c' := RunFirst(c, r);
      && c'.state == c.state && c'.ups == c.ups && c'.downs == c.downs
      && (c.interest.added ==> c'.interest.added) && (Registered(c) ==> Registered(c'))
      && (c.state.Disconnected? ==> c'.interest == c.interest)
  {
  }

  ghost predicate AllHarmless(acts: seq<Action>) {
    forall a :: a in acts ==> Harmless(a) && PossibleResult(a)
  }

  lemma {:induction false} CalmSnoc(c: Conn, acts: seq<Action>, c1: Conn, a: Action, c2: Conn)
    requires Calm(c, acts, c1) && Calm(c1, [a], c2)
    ensures Calm(c, acts + [a], c2)
  {
    ToggleSnoc(acts, a, c.interest.read);
    ToggleSnoc([], a, c1.interest.read);
    assert [] + [a] == [a];
  }

  lemma ToggleSnoc(acts: seq<Action>, a: Action, before: bool)
    ensures LastToggle(acts + [a], before) == (a.StartRead? || (!a.StopRead? && LastToggle(acts, before)))
  {
    assert (acts + [a])[..|acts|] == acts;
  }

  /** User calls and writes neither connect nor disconnect. */
  lemma {:induction false} HarmlessRun(c: Conn, acts: seq<Action>)
    requires AllHarmless(acts)
    ensures ValidRun(c, acts) && Calm(c, acts, After(c, acts))
  {
    if acts != [] {
      var front, last := acts[..|acts| - 1], acts[|acts| - 1];
      assert acts == front + [last];
      assert AllHarmless(front) && last in acts;
      HarmlessRun(c, front);
      HarmlessStep(After(c, front), last);
      Extend(c, front, last);
      CalmSnoc(c, front, After(c, front), last, After(c, acts));
    }
  }

  lemma {:induction false} Concat(c: Conn, a: seq<Action>, b: seq<Action>)
    requires ValidRun(c, a)
    ensures ValidRun(c, a + b) <==> ValidRun(After(c, a), b)
    ensures ValidRun(c, a + b) ==> After(c, a + b) == After(After(c, a), b)
  {
    if b == [] {
      assert a + b == a;
    } else {
      var n := |b| - 1;
      Concat(c, a, b[..n]);
      SnocConcat(a, b);
      assert (a + b)[..|a| + n] == a + b[..n] && (a + b)[|a| + n] == b[n];
    }
  }

  lemma CloseStep(c: Conn)
    ensures ValidRun(c, [HandleClose]) <==> Live(c)
    ensures Live(c) ==> After(c, [HandleClose]) == Disconnect(c)
  {
    assert [HandleClose][..0] == [];
  }

  /** The calls of the message callback, if it runs. */
  function Calls(e: Event): seq<Action> {
    if Reads(e.revents) && e.read.Got? then e.ops else []
  }

  /** What an event does to a connection, if no assert of the source fails. */
  ghost predicate EventEffect(c: Conn, e: Event, c': Conn) {
    if Live(c) && Closes(e) then
      && c'.state.Disconnected? && c'.ups == c.ups && c'.downs == c.downs + 1
      && c'.interest.added && !c'.interest.write && c'.interest.read == LastToggle(Calls(e), false)
    else Calm(c, Calls(e), c')
  }

  /** The handlers after the close handler. */
  function OpenSteps(e: Event): seq<Action> {
    Calls(e) + (if PollOut in e.revents then [HandleWrite(e.room)] else [])
  }

  lemma {:induction false} CalmEvent(c: Conn, e: Event)
    requires WellFormed(e)
    ensures ValidRun(c, OpenSteps(e)) && Calm(c, Calls(e), After(c, OpenSteps(e)))
  {
    var calls := Calls(e);
    assert AllHarmless(calls);
    HarmlessRun(c, calls);
    if PollOut in e.revents {
      var w, c1 := HandleWrite(e.room), After(c, calls);
      Extend(c, calls, w);
      HarmlessStep(c1, w);
      CalmWrite(c, calls, c1, w);
    } else {
      assert OpenSteps(e) == calls;
    }
  }

  /** A write is no read toggle. */
  lemma {:induction false} CalmWrite(c: Conn, acts: seq<Action>, c1: Conn, w: Action)
    requires w.HandleWrite? && Calm(c, acts, c1) && Calm(c1, [w], Next(c1, w))
    ensures Calm(c, acts, Next(c1, w))
  {
    CalmSnoc(c, acts, c1, w, Next(c1, w));
    ToggleSnoc(acts, w, c.interest.read);
  }

  /**
   * An event fails the assert in `handleClose` exactly if it closes a connection that is not up, or
   * runs both the close handler and an end-of-file read. Otherwise it closes a connection that is up
   * once, in exactly the cases named, and leaves the life cycle alone in all others.
   */
  lemma {:induction false} EventClosesOnceIff(c: Conn, e: Event)
    requires WellFormed(e)
    ensures ValidRun(c, Steps(e)) <==> !Fails(c, e)
    ensures ValidRun(c, Steps(e)) ==> EventEffect(c, e, After(c, Steps(e)))
  {
    if ClosesFirst(e.revents) {
      CloseStep(c);
      if Reads(e.revents) && e.read.Eof? {
        TwoCloses(c, e);
      } else {
        CloseThenOpen(c, e);
      }
    } else if Reads(e.revents) && e.read.Eof? {
      CloseThenOpen(c, e);
    } else {
      assert Steps(e) == OpenSteps(e);
      CalmEvent(c, e);
    }
  }

  lemma {:induction false} TwoCloses(c: Conn, e: Event)
    requires ClosesTwice(e)
    ensures !ValidRun(c, Steps(e))
  {
    var last := if PollOut in e.revents then [HandleWrite(e.room)] else [];
    CloseStep(c);
    if Live(c) {
      CloseStep(After(c, [HandleClose]));
      Concat(c, [HandleClose], [HandleClose]);
    } else {
      PrefixInvalid(c, [HandleClose], [HandleClose]);
    }
    PrefixInvalid(c, [HandleClose] + [HandleClose], last);
  }

  lemma {:induction false} CloseThenOpen(c: Conn, e: Event)
    requires WellFormed(e) && Closes(e) && !ClosesTwice(e)
    ensures ValidRun(c, Steps(e)) <==> Live(c)
    ensures Live(c) ==> EventEffect(c, e, After(c, Steps(e)))
  {
    assert Steps(e) == [HandleClose] + OpenSteps(e);
    CloseStep(c);
    if Live(c) {
      CalmEvent(Disconnect(c), e);
      Concat(c, [HandleClose], OpenSteps(e));
    } else {
      PrefixInvalid(c, [HandleClose], OpenSteps(e));
    }
  }

  lemma {:induction false} PrefixInvalid(c: Conn, a: seq<Action>, b: seq<Action>)
    requires !ValidRun(c, a)
    ensures !ValidRun(c, a + b)
  {
    if b == [] {
      assert a + b == a;
    } else {
      var n := |b| - 1;
      PrefixInvalid(c, a, b[..n]);
      assert (a + b)[..|a| + n] == a + b[..n];
    }
  }

  /** The bits for which no read result can make the assert fail. */
  predicate SafeBits(revents: set<PollBit>) {
    !(ClosesFirst(revents) && Reads(revents))
  }

  /** POLLHUP without POLLIN but with POLLPRI or POLLRDHUP is the only way to close twice. */
  lemma DoubleCloseNeedsUnsafeBits(c: Conn, revents: set<PollBit>)
    requires Live(c)
    ensures SafeBits(revents) <==> forall read: ReadResult :: ValidRun(c, Steps(Event(revents, read, [], 0)))
  {
    forall read: ReadResult
      ensures ValidRun(c, Steps(Event(revents, read, [], 0))) <==> !ClosesTwice(Event(revents, read, [], 0))
    {
      EventClosesOnceIff(c, Event(revents, read, [], 0));
    }
    if !SafeBits(revents) {
      assert !ValidRun(c, Steps(Event(revents, Eof, [], 0)));
    }
  }

  // ---------- reading after the connection is down ----------

  /**
   * On a connection that is down the channel watches for reads exactly if startRead was the last
   * read toggle, and never for writes, whatever else is called or runs; so `connectDestroyed` finds
   * no interest, as it asserts, exactly if startRead was not the last toggle.
   */
  lemma {:induction false} NoInterestIffNotReading(c: Conn, acts: seq<Action>)
    requires c.state.Disconnected? && !c.interest.write
    requires ValidRun(c, acts) && forall a :: a in acts ==> !a.Destroy?
    ensures After(c, acts).state.Disconnected? && !After(c, acts).interest.write
    ensures After(c, acts).interest.read == LastToggle(acts, c.interest.read)
    ensures Enabled(After(c, acts), Destroy) <==> !LastToggle(acts, c.interest.read)
  {
    if acts != [] {
      var n := |acts| - 1;
      NoInterestIffNotReading(c, acts[..n]);
      assert acts[n] in acts;
      if acts[n].RunPosted? { PostedStep(After(c, acts[..n]), acts[n].result); }
    }
  }
}
