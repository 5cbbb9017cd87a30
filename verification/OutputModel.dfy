/**
 The output path of a connection: direct writes, an output buffer, interest in
 writability, and the half-close.  What the system answers to each write is an input.
 */
module OutputModel {
  import opened Prelude
  import opened Framing

  datatype ConnState = Connecting | Connected | Disconnecting | Disconnected

  datatype Errno = Again | Interrupted | Other

  /** What a write returns, as the system reports it: a count, or -1 and an error. */
  datatype WriteResult = Result(n: int, errno: Errno)

  /** A half-close, with the number of bytes on the wire before it, what was still buffered,
      and whether the connection had been closed already. */
  datatype Fin = Fin(sent: nat, pending: seq<byte>, closed: bool)

  /** A connection beside what can be observed of it: the bytes on the wire, the messages it
      accepted, the half-closes. */
  datatype Conn = Conn(
    state: ConnState,
    writing: bool,
    out: seq<byte>,
    closed: bool,
    wire: seq<byte>,
    accepted: seq<seq<byte>>,
    fins: seq<Fin>)

  const NewConn: Conn := Conn(Connecting, false, [], false, [], [], [])

  function Clip(n: int, len: nat): (r: nat)
    ensures r <= len && (r as int == n || n < 0 || (n > len && r == len))
  {
    if n < 0 then 0 else if n <= len then n else len
  }

  function Established(c: Conn): Conn {
    c.(state := Connected)
  }

  function Close(c: Conn): Conn {
    c.(state := Disconnected, writing := false, closed := true)
  }

  /** The server tearing the connection down. */
  function Destroy(c: Conn): Conn {
    if c.state == Connected then Close(c) else c
  }

  function ShutdownInLoop(c: Conn): Conn {
    if c.writing then c else c.(fins := c.fins + [Fin(|c.wire|, c.out, c.closed)])
  }

  /** Bytes that go straight to the wire. */
  function Direct(c: Conn, msg: seq<byte>, w: WriteResult): nat {
    if !c.writing && c.out == [] && w.n >= 0 then Clip(w.n, |msg|) else 0
  }

  predicate Breaks(c: Conn, w: WriteResult) {
    !c.writing && c.out == [] && w.n < 0 && w.errno == Other
  }

  function SendInLoop(c: Conn, msg: seq<byte>, w: WriteResult): Conn {
    if c.state == Disconnected then c
    else if Breaks(c, w) then Close(c)
    else
      var k := Direct(c, msg, w);
      var sent := c.(wire := c.wire + msg[..k], accepted := c.accepted + [msg]);
      if k == |msg| then sent else sent.(out := c.out + msg[k..], writing := true)
  }

  /** Writes until the buffer is empty or the system has had enough; no more results means
      the system would block. */
  function Flush(c: Conn, ws: seq<WriteResult>): Conn
    decreases |ws|
  {
    if c.out == [] then
      var c1 := c.(writing := false);
      if c.state == Disconnecting then ShutdownInLoop(c1) else c1
    else if ws == [] then c
    else if ws[0].n > 0 then
      var k := Clip(ws[0].n, |c.out|);
      Flush(c.(wire := c.wire + c.out[..k], out := c.out[k..]), ws[1..])
    else
      match ws[0].errno
      case Again => c
      case Interrupted => Flush(c, ws[1..])
      case Other => Close(c)
  }

  function HandleWrite(c: Conn, ws: seq<WriteResult>): Conn {
    if c.writing then Flush(c, ws) else c
  }

  // ---------------------------------------------------------------- whole runs

  datatype Task = Send(msg: seq<byte>) | Shutdown

  /** A connection and the tasks waiting in its loop. */
  datatype Loop = Loop(c: Conn, tasks: seq<Task>)

  /**
   What may happen.  `MarkDisconnecting` is another thread's shutdown storing the state, and
   `Post` its send or shutdown reaching the loop; that thread may have looked at the state
   any time before, so neither is tied to the state now.
   */
  datatype Event =
    | Establish
    | LoopSend(msg: seq<byte>, w: WriteResult)
    | LoopShutdown
    | MarkDisconnecting
    | Post(task: Task)
    | RunTask(w: WriteResult)
    | Writable(ws: seq<WriteResult>)
    | PeerGone
    | TearDown

  predicate Enabled(l: Loop, e: Event) {
    match e
    case Establish => l.c.state == Connecting && !l.c.closed
    case MarkDisconnecting => l.c.state != Connecting
    case Post(_) => l.c.state != Connecting
    case RunTask(_) => l.tasks != []
    case _ => true
  }

  function Happen(l: Loop, e: Event): Loop
    requires Enabled(l, e)
  {
    match e
    case Establish => l.(c := Established(l.c))
    case LoopSend(msg, w) => if l.c.state == Connected then l.(c := SendInLoop(l.c, msg, w)) else l
    case LoopShutdown =>
      if l.c.state == Connected then l.(c := ShutdownInLoop(l.c.(state := Disconnecting))) else l
    case MarkDisconnecting => l.(c := l.c.(state := Disconnecting))
    case Post(task) => l.(tasks := l.tasks + [task])
    case RunTask(w) =>
      var c := match l.tasks[0] { case Send(msg) => SendInLoop(l.c, msg, w) case Shutdown => ShutdownInLoop(l.c) };
      Loop(c, l.tasks[1..])
    case Writable(ws) => l.(c := HandleWrite(l.c, ws))
    case PeerGone => l.(c := Close(l.c))
    case TearDown => l.(c := Destroy(l.c))
  }

  ghost predicate Reaches(l: Loop, es: seq<Event>, l': Loop)
    decreases |es|
  {
    if es == [] then l' == l else Enabled(l, es[0]) && Reaches(Happen(l, es[0]), es[1..], l')
  }

  const Idle: Loop := Loop(NewConn, [])

  // ---------------------------------------------------------------- what every step keeps

  /** The bytes on the wire followed by the buffer are the accepted messages, in order. */
  ghost predicate Streams(c: Conn) {
    c.wire + c.out == Flatten(c.accepted)
  }

  /** No half-close on an open connection left bytes behind. */
  ghost predicate FinsOrderly(c: Conn) {
    forall i | 0 <= i < |c.fins| :: !c.fins[i].closed ==> c.fins[i].pending == []
  }

  ghost predicate Sound(c: Conn) {
    Streams(c) && FinsOrderly(c) && (!c.closed ==> (c.writing <==> c.out != []))
  }

  /** What has been observed stays observed. */
  ghost predicate Extends(c: Conn, c': Conn) {
    c.wire <= c'.wire && c.accepted <= c'.accepted && c.fins <= c'.fins && (c.closed ==> c'.closed)
  }

  lemma SendStreams(c: Conn, msg: seq<byte>, k: nat)
    requires Streams(c) && k <= |msg| && (k > 0 ==> c.out == [])
    ensures (c.wire + msg[..k]) + (c.out + msg[k..]) == Flatten(c.accepted + [msg])
  {
    FlattenConcat(c.accepted, [msg]);
    assert Flatten([msg]) == msg + Flatten([]);
    assert msg == msg[..k] + msg[k..];
    if k > 0 {
      assert (c.wire + msg[..k]) + ([] + msg[k..]) == c.wire + msg;
    } else {
      assert (c.wire + msg[..k]) + (c.out + msg[k..]) == c.wire + c.out + msg;
    }
  }

  lemma SendSound(c: Conn, msg: seq<byte>, w: WriteResult)
    requires Sound(c)
    ensures Sound(SendInLoop(c, msg, w)) && Extends(c, SendInLoop(c, msg, w))
  {
    if c.state != Disconnected && !Breaks(c, w) {
      hide Flatten;
      var k := Direct(c, msg, w);
      SendStreams(c, msg, k);
      if k == |msg| {
        assert c.out + msg[k..] == c.out;
      }
    }
  }

  /** Inside the write loop the buffer may already be empty while interest is still on. */
  lemma {:induction false} FlushSound(c: Conn, ws: seq<WriteResult>)
    requires Streams(c) && FinsOrderly(c) && c.writing
    ensures Sound(Flush(c, ws)) && Extends(c, Flush(c, ws))
    decreases |ws|
  {
    hide Flatten;
    if c.out != [] && ws != [] {
      if ws[0].n > 0 {
        var k := Clip(ws[0].n, |c.out|);
        var c1 := c.(wire := c.wire + c.out[..k], out := c.out[k..]);
        assert c1.wire + c1.out == c.wire + c.out;
        FlushSound(c1, ws[1..]);
      } else if ws[0].errno == Interrupted {
        FlushSound(c, ws[1..]);
      }
    }
  }

  lemma HappenSound(l: Loop, e: Event)
    requires Sound(l.c) && Enabled(l, e)
    ensures Sound(Happen(l, e).c) && Extends(l.c, Happen(l, e).c)
  {
    hide Flush, SendInLoop;
    match e {
      case LoopSend(msg, w) => SendSound(l.c, msg, w);
      case RunTask(w) =>
        if l.tasks[0].Send? {
          SendSound(l.c, l.tasks[0].msg, w);
        }
      case Writable(ws) =>
        if l.c.writing {
          FlushSound(l.c, ws);
        }
      case _ =>
    }
  }

  lemma {:induction false} RunSound(l: Loop, es: seq<Event>, l': Loop)
    requires Sound(l.c) && Reaches(l, es, l')
    ensures Sound(l'.c) && Extends(l.c, l'.c)
    decreases |es|
  {
    if es != [] {
      hide Sound, Happen;
      HappenSound(l, es[0]);
      RunSound(Happen(l, es[0]), es[1..], l');
    }
  }

  /**
   In every run, whatever the sends, the partial writes and the errors: the wire followed by
   the buffer is exactly the accepted messages in order; until the connection is closed,
   interest in writing is on exactly while the buffer is non-empty, and no half-close was
   issued with bytes in the buffer.
   */
  lemma OutputIsAStream(es: seq<Event>, l: Loop)
    requires Reaches(Idle, es, l)
    ensures l.c.wire + l.c.out == Flatten(l.c.accepted)
    ensures !l.c.closed ==> (l.c.writing <==> l.c.out != [])
    ensures forall i | 0 <= i < |l.c.fins| :: !l.c.fins[i].closed ==> l.c.fins[i].pending == []
  {
    hide Reaches;
    RunSound(Idle, es, l);
  }

  // ---------------------------------------------------------------- the write loop

  /** These results empty a buffer of `n` bytes. */
  predicate Drains(n: nat, ws: seq<WriteResult>)
    decreases |ws|
  {
    n == 0
    || (ws != []
        && (if ws[0].n > 0 then Drains(n - Clip(ws[0].n, n), ws[1..])
            else ws[0].errno == Interrupted && Drains(n, ws[1..])))
  }

  /** The write loop empties the buffer, drops its interest and, on a connection marked for
      shutdown, half-closes it, exactly when the system takes everything; otherwise it has
      half-closed nothing. */
  lemma {:induction false} FlushOutcome(c: Conn, ws: seq<WriteResult>)
    requires c.writing
    ensures
      var r := Flush(c, ws);
      if Drains(|c.out|, ws) then
        && r.out == [] && !r.writing && r.wire == c.wire + c.out && r.closed == c.closed
        && |r.fins| == |c.fins| + (if c.state == Disconnecting then 1 else 0)
      else r.out != [] && r.fins == c.fins && (r.writing || r.closed)
    decreases |ws|
  {
    if c.out != [] && ws != [] {
      if ws[0].n > 0 {
        var k := Clip(ws[0].n, |c.out|);
        assert c.wire + c.out == (c.wire + c.out[..k]) + c.out[k..];
        FlushOutcome(c.(wire := c.wire + c.out[..k], out := c.out[k..]), ws[1..]);
      } else if ws[0].errno == Interrupted {
        FlushOutcome(c, ws[1..]);
      }
    }
  }

  /** A system that takes something each time takes everything in the end. */
  lemma {:induction false} EnoughWritesDrain(n: nat, ws: seq<WriteResult>)
    requires |ws| >= n && forall i | 0 <= i < |ws| :: ws[i].n > 0
    ensures Drains(n, ws)
    decreases |ws|
  {
    if n > 0 {
      EnoughWritesDrain(n - Clip(ws[0].n, n), ws[1..]);
    }
  }

  // ---------------------------------------------------------------- half-close and queued sends

  ghost predicate SendWaiting(l: Loop) {
    exists i | 0 <= i < |l.tasks| :: l.tasks[i].Send?
  }

  /** A half-close happened in this step although a send was still waiting in the loop. */
  ghost predicate Overtakes(l: Loop, l': Loop) {
    |l'.c.fins| > |l.c.fins| && SendWaiting(l')
  }

  /** The guard of the branches that half-close, with a send still waiting in the loop: the
      write loop on a connection another thread has already marked, when the system takes
      all that is buffered; the loop's own thread shutting down a connection that is not
      writing; or a queued shutdown on such a connection. */
  ghost predicate OvertakingGuard(l: Loop, e: Event) {
    && SendWaiting(l)
    && match e
       case Writable(ws) => l.c.writing && l.c.state == Disconnecting && Drains(|l.c.out|, ws)
       case LoopShutdown => !l.c.writing && l.c.state == Connected
       case RunTask(_) => l.tasks != [] && l.tasks[0].Shutdown? && !l.c.writing
       case _ => false
  }

  /** For every event: it half-closes ahead of a queued send if and only if the guard holds. */
  lemma OvertakesIff(l: Loop, e: Event)
    requires Enabled(l, e)
    ensures Overtakes(l, Happen(l, e)) <==> OvertakingGuard(l, e)
  {
    hide Flush, Drains, SendInLoop;
    match e {
      case Writable(ws) =>
        if l.c.writing {
          FlushOutcome(l.c, ws);
        }
      case LoopSend(msg, w) => SendKeepsFins(l.c, msg, w);
      case RunTask(w) =>
        if l.tasks[0].Send? {
          SendKeepsFins(l.c, l.tasks[0].msg, w);
        } else {
          WaitingBehind(l);
        }
      case _ =>
    }
  }

  lemma SendKeepsFins(c: Conn, msg: seq<byte>, w: WriteResult)
    ensures SendInLoop(c, msg, w).fins == c.fins
  {
  }

  lemma WaitingBehind(l: Loop)
    requires l.tasks != [] && l.tasks[0].Shutdown?
    ensures forall c :: SendWaiting(Loop(c, l.tasks[1..])) <==> SendWaiting(l)
  {
    if SendWaiting(l) {
      var i :| 0 <= i < |l.tasks| && l.tasks[i].Send?;
      assert l.tasks[1..][i - 1].Send?;
    }
  }

  /** The loop's own thread shuts down while another thread's send is queued, as the codec
      does on a bad frame: the half-close goes out at once, ahead of the message. */
  lemma LoopShutdownOvertakes(msg: seq<byte>) returns (es: seq<Event>, l: Loop)
    ensures Reaches(Idle, es, l) && OvertakingGuard(l, LoopShutdown) && Overtakes(l, Happen(l, LoopShutdown))
    ensures l.tasks == [Send(msg)] && Happen(l, LoopShutdown).c.fins == [Fin(0, [], false)]
  {
    es := [Establish, Post(Send(msg))];
    var l1 := Happen(Idle, es[0]);
    l := Happen(l1, es[1]);
    assert l.tasks[0].Send?;
    assert es[1..] == [es[1]] && es[1..][1..] == [];
    assert Reaches(l1, es[1..], l);
  }

  /** Another thread sends and then shuts down; the half-close goes out first and the message
      is lost, although it was sent on a connected connection. */
  lemma FinBeforeQueuedSend(first: seq<byte>, second: seq<byte>) returns (es: seq<Event>, l: Loop)
    requires first != [] && second != []
    ensures Reaches(Idle, es, l) && Post(Send(second)) in es
    ensures l.c.fins == [Fin(|first|, [], false)] && l.c.wire == first && l.c.accepted == [first] && SendWaiting(l)
    ensures
      var after := Happen(l, RunTask(Result(-1, Other))).c;
      after.closed && after.accepted == [first] && after.wire == first
  {
    hide Reaches, Flush, SendInLoop, ShutdownInLoop;
    var e0, e1, e2 := Establish, LoopSend(first, Result(-1, Again)), Post(Send(second));
    var e3, e4, e5 := MarkDisconnecting, Post(Shutdown), Writable([Result(|first|, Again)]);
    es := [e0, e1, e2, e3, e4, e5];
    var l1, l2 := BlockedSend(first);
    var l3 := Happen(l2, e2);
    var l4 := Happen(l3, e3);
    var l5 := Happen(l4, e4);
    FlushesWhole(l5.c, |first|);
    l := Happen(l5, e5);
    assert l.tasks[0] == Send(second);
    BrokenSend(l.c, second);
    hide Happen;
    ReachesSix(Idle, l1, l2, l3, l4, l5, l, es);
  }

  lemma BlockedSend(msg: seq<byte>) returns (l1: Loop, l2: Loop)
    requires msg != []
    ensures l1 == Happen(Idle, Establish) && l2 == Happen(l1, LoopSend(msg, Result(-1, Again)))
    ensures l2 == Loop(Conn(Connected, true, msg, false, [], [msg], []), [])
  {
    l1 := Happen(Idle, Establish);
    l2 := Happen(l1, LoopSend(msg, Result(-1, Again)));
    assert [] + msg[0..] == msg && [] + msg[..0] == [];
  }

  lemma BrokenSend(c: Conn, msg: seq<byte>)
    requires c.state != Disconnected && !c.writing && c.out == []
    ensures SendInLoop(c, msg, Result(-1, Other)) == Close(c)
  {
  }

  lemma FlushesWhole(c: Conn, n: nat)
    requires c.writing && c.state == Disconnecting && |c.out| == n > 0 && c.wire == []
    ensures Flush(c, [Result(n, Again)])
      == c.(wire := c.out, out := [], writing := false, fins := c.fins + [Fin(n, [], c.closed)])
  {
    var c1 := c.(wire := c.wire + c.out[..n], out := c.out[n..]);
    assert c1.wire == c.out && c1.out == [];
    assert Flush(c, [Result(n, Again)]) == Flush(c1, [Result(n, Again)][1..]);
  }

  lemma ReachesSix(l0: Loop, l1: Loop, l2: Loop, l3: Loop, l4: Loop, l5: Loop, l6: Loop, es: seq<Event>)
    requires |es| == 6
    requires Enabled(l0, es[0]) && l1 == Happen(l0, es[0]) && Enabled(l1, es[1]) && l2 == Happen(l1, es[1])
    requires Enabled(l2, es[2]) && l3 == Happen(l2, es[2]) && Enabled(l3, es[3]) && l4 == Happen(l3, es[3])
    requires Enabled(l4, es[4]) && l5 == Happen(l4, es[4]) && Enabled(l5, es[5]) && l6 == Happen(l5, es[5])
    ensures Reaches(l0, es, l6)
  {
    hide Happen, Enabled;
    assert Reaches(l6, es[6..], l6);
    assert es[5..][1..] == es[6..] && Reaches(l5, es[5..], l6);
    assert es[4..][1..] == es[5..] && Reaches(l4, es[4..], l6);
    assert es[3..][1..] == es[4..] && Reaches(l3, es[3..], l6);
    assert es[2..][1..] == es[3..] && Reaches(l2, es[2..], l6);
    assert es[1..][1..] == es[2..] && Reaches(l1, es[1..], l6);
  }

  // ---------------------------------------------------------------- end to end

  lemma {:induction false} FlattenEncodings(ms: seq<Message>, frames: seq<seq<byte>>)
    requires |frames| == |ms| && forall i | 0 <= i < |ms| :: frames[i] == Encode(ms[i])
    ensures Flatten(frames) == EncodeAll(ms)
    decreases |ms|
  {
    if ms != [] {
      hide Encode;
      FlattenEncodings(ms[1..], frames[1..]);
    }
  }

  /**
   From the server's sends to the client's frames.  Whatever the partial writes on one side
   and the reads on the other, a client fed a beginning of the wire takes the accepted
   messages in order, complete ones only, never finds the stream corrupt, and has them all
   once the buffer is empty and the wire is read.
   */
  lemma EndToEnd(es: seq<Event>, l: Loop, ms: seq<Message>, calls: seq<Call>)
    requires Reaches(Idle, es, l)
    requires |l.c.accepted| == |ms| && forall i | 0 <= i < |ms| :: l.c.accepted[i] == Encode(ms[i]) && Fits(ms[i])
    requires DoAll(Start, calls).stream <= l.c.wire && DoAll(Start, calls).failed
    ensures
      var r := DoAll(Start, calls);
      && !r.c.corrupt && r.taken <= ms && CutAt(ms, r.stream, |r.taken|, r.c.held)
      && (r.stream == l.c.wire && l.c.out == [] ==> r.taken == ms)
  {
    hide Reaches, DoAll, Encode, Fits, Scan, CutAt;
    OutputIsAStream(es, l);
    FlattenEncodings(ms, l.c.accepted);
    ClientFollowsScan(calls);
    var r := DoAll(Start, calls);
    var future := l.c.wire[|r.stream|..] + l.c.out;
    assert l.c.wire == r.stream + l.c.wire[|r.stream|..];
    assert r.stream + future == EncodeAll(ms);
    ScanEncoded(ms, r.stream, future);
    if r.stream == l.c.wire && l.c.out == [] {
      assert r.stream == EncodeAll(ms);
      WholeCut(ms, |r.taken|, r.c.held);
    }
  }
}
