/**
 * `TcpConnection` as a state machine on its I/O loop: the output stream with partial writes, the
 * half-close, the watermark notifications and the connection state. A call of send or shutdown by
 * another thread is two steps: the call, which tests and sets the state and queues a functor, and
 * the functor on the loop. Results of system calls are parameters of the steps; what the socket
 * accepted and what was notified is kept as history.
 */
module TcpConnectionSpec {

  newtype Byte = b: int | 0 <= b < 256
  type Bytes = seq<Byte>

  datatype ConnState = Connecting | Connected | Disconnecting | Disconnected

  /** Channel interest: kReadEvent and kWriteEvent in `events_`, and `addedToLoop_`. */
  datatype Interest = Interest(read: bool, write: bool, added: bool) {
    predicate None() {
      !read && !write
    }
  }

  /** Outcome of write(2): bytes taken, EWOULDBLOCK or another harmless error, EPIPE or ECONNRESET. */
  datatype WriteResult = Wrote(n: nat) | Retry | Broken

  datatype Notice = WriteComplete | HighWater(size: nat)

  /** What `sendInLoop` did with a message: wrote or buffered it, lost it to a broken write, or gave up. */
  datatype Fate = Taken | Broke | GaveUp

  datatype Message = Message(data: Bytes, fate: Fate)

  /** Functors that send and shutdown queue when another thread calls them. */
  datatype Posted = SendTask(data: Bytes) | ShutdownTask

  /** One call of shutdownWrite: what was written, buffered and handled, and what was queued. */
  datatype Shut = Shut(wired: Bytes, outbuf: Bytes, handled: nat, queued: seq<Posted>, down: bool)

  datatype Conn = Conn(
    state: ConnState,
    reading: bool,
    interest: Interest,
    outbuf: Bytes,
    mark: nat,
    posted: seq<Posted>,           // queued on the loop, oldest first
    // history
    wired: Bytes,                  // accepted by the socket
    messages: seq<Message>,        // in the order of sendInLoop
    notices: seq<Notice>,          // write-complete and high-water callbacks queued
    shuts: seq<Shut>,              // every shutdownWrite
    ups: nat,
    downs: nat)

  function New(mark: nat): Conn {
    Conn(Connecting, true, Interest(false, false, false), [], mark, [], [], [], [], [], 0, 0)
  }

  datatype Action =
    | Establish
    | Send(data: Bytes, result: WriteResult)           // send() on the loop thread
    | PostSend(data: Bytes)                            // send() on another thread
    | HandleWrite(room: int)                           // what write(2) would take; negative: error
    | Shutdown                                         // shutdown() on the loop thread
    | PostShutdown                                     // shutdown() on another thread
    | RunPosted(result: WriteResult)                   // the oldest posted functor
    | ForceClose
    | ForceCloseWithDelay
    | ForceCloseInLoop
    | HandleClose
    | StartRead
    | StopRead
    | Destroy

  /**
   * Results the kernel can return, and the asserts of the source. After shutdownWrite a write fails
   * with EPIPE. A send on the loop thread writes only while the connection is up, before any
   * shutdownWrite.
   */
  predicate Enabled(c: Conn, a: Action) {
    match a
    case Establish => c.state.Connecting?
    case Send(data, r) => CanReturn(data, r)
    case RunPosted(r) =>
      c.posted != [] && (c.posted[0].SendTask? ==> CanReturn(c.posted[0].data, r) && (c.shuts != [] ==> r.Broken?))
    case HandleClose => c.state.Connected? || c.state.Disconnecting?
    case Destroy => c.state.Connected? || c.interest.None()
    case _ => true
  }

  predicate CanReturn(data: Bytes, r: WriteResult) {
    r.Wrote? ==> r.n <= |data|
  }

  function Enqueue(c: Conn, n: Notice): Conn {
    c.(notices := c.notices + [n])
  }

  /** The part of `sendInLoop` that buffers what was not written. */
  function Buffer(c: Conn, rest: Bytes): Conn {
    if rest == [] then c
    else
      var total := |c.outbuf| + |rest|;
      var c1 := if total >= c.mark && |c.outbuf| < c.mark then Enqueue(c, HighWater(total)) else c;
      c1.(outbuf := c.outbuf + rest, interest := c.interest.(write := true, added := c.interest.added || !c.interest.write))
  }

  function Record(c: Conn, data: Bytes, fate: Fate): Conn {
    c.(messages := c.messages + [Message(data, fate)])
  }

  function SendInLoop(c: Conn, data: Bytes, r: WriteResult): Conn
    requires CanReturn(data, r)
  {
    if c.state.Disconnected? then Record(c, data, GaveUp)
    else if !c.interest.write && c.outbuf == [] then
      match r
      case Wrote(n) =>
        var c1 := Record(c, data, Taken).(wired := c.wired + data[..n]);
        Buffer(if n == |data| then Enqueue(c1, WriteComplete) else c1, data[n..])
      case Retry => Buffer(Record(c, data, Taken), data)
      case Broken => Record(c, data, Broke)
    else Buffer(Record(c, data, Taken), data)
  }

  function ShutdownInLoop(c: Conn): Conn {
    if c.interest.write then c
    else c.(shuts := c.shuts + [Shut(c.wired, c.outbuf, |c.messages|, c.posted, c.state.Disconnected?)])
  }

  function RunFirst(c: Conn, r: WriteResult): Conn
    requires Enabled(c, RunPosted(r))
  {
    var c1 := c.(posted := c.posted[1..]);
    match c.posted[0]
    case SendTask(data) => SendInLoop(c1, data, r)
    case ShutdownTask => ShutdownInLoop(c1)
  }

  function OnWritable(c: Conn, room: int): Conn {
    var taken := if room > |c.outbuf| then |c.outbuf| else room;
    if !c.interest.write || taken <= 0 then c
    else
      var c1 := c.(wired := c.wired + c.outbuf[..taken], outbuf := c.outbuf[taken..]);
      if c1.outbuf != [] then c1
      else
        var c2 := Enqueue(c1.(interest := c.interest.(write := false, added := true)), WriteComplete);
        if c.state.Disconnecting? then ShutdownInLoop(c2) else c2
  }

  /** `handleClose`, and the branch of `connectDestroyed` for a connection still up. */
  function Disconnect(c: Conn): Conn {
    c.(state := Disconnected, interest := Interest(false, false, true), downs := c.downs + 1)
  }

  function Next(c: Conn, a: Action): Conn
    requires Enabled(c, a)
  {
    match a
    case Establish => c.(state := Connected, interest := c.interest.(read := true, added := true), ups := c.ups + 1)
    case Send(data, r) => if c.state.Connected? then SendInLoop(c, data, r) else c
    case PostSend(data) => if c.state.Connected? then c.(posted := c.posted + [SendTask(data)]) else c
    case PostShutdown =>
      if c.state.Connected? then c.(state := Disconnecting, posted := c.posted + [ShutdownTask]) else c
    case RunPosted(r) => RunFirst(c, r)
    case HandleWrite(room) => OnWritable(c, room)
    case Shutdown => if c.state.Connected? then ShutdownInLoop(c.(state := Disconnecting)) else c
    case ForceClose => if c.state.Connected? || c.state.Disconnecting? then c.(state := Disconnecting) else c
    case ForceCloseWithDelay => if c.state.Connected? || c.state.Disconnecting? then c.(state := Disconnecting) else c
    case ForceCloseInLoop => if c.state.Connected? || c.state.Disconnecting? then Disconnect(c) else c
    case HandleClose => Disconnect(c)
    case StartRead =>
      if !c.reading || !c.interest.read
      then c.(reading := true, interest := c.interest.(read := true, added := true)) else c
    case StopRead =>
      if c.reading || c.interest.read
      then c.(reading := false, interest := c.interest.(read := false, added := true)) else c
    case Destroy =>
      var c1 := if c.state.Connected? then Disconnect(c) else c;
      c1.(interest := c1.interest.(added := false))
  }

  // ---------- runs ----------

  ghost predicate ValidRun(c: Conn, acts: seq<Action>)
    decreases |acts|, 0
  {
    acts == [] ||
    (var n := |acts| - 1;
     ValidRun(c, acts[..n]) && Enabled(After(c, acts[..n]), acts[n]))
  }

  ghost function After(c: Conn, acts: seq<Action>): Conn
    requires ValidRun(c, acts)
    decreases |acts|, 1
  {
    if acts == [] then c
    else
      var n := |acts| - 1;
      Next(After(c, acts[..n]), acts[n])
  }

  lemma Extend(c: Conn, acts: seq<Action>, a: Action)
    requires ValidRun(c, acts) && Enabled(After(c, acts), a)
    ensures ValidRun(c, acts + [a]) && After(c, acts + [a]) == Next(After(c, acts), a)
  {
    assert (acts + [a])[..|acts|] == acts;
  }
}
