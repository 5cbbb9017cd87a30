/** The output path as it is programmed, over the byte buffer. */
module TcpConnection {
  import opened Prelude
  import opened OutputModel
  import Buffer

  class TcpConnection {
    var state: ConnState
    var writing: bool
    const output: Buffer.Buffer
    // What can be observed of the connection from outside.
    ghost var closed: bool
    ghost var wire: seq<byte>
    ghost var accepted: seq<seq<byte>>
    ghost var fins: seq<Fin>

    ghost predicate Valid()
      reads this, output
    {
      output.Valid()
    }

    ghost function State(): Conn
      requires Valid()
      reads this, output, output.data
    {
      Conn(state, writing, output.Contents(), closed, wire, accepted, fins)
    }

    constructor ()
      ensures Valid() && State() == NewConn && fresh(output) && fresh(output.data)
    {
      state, writing := Connecting, false;
      output := new Buffer.Buffer();
      closed, wire, accepted, fins := false, [], [], [];
    }

    method ConnectEstablished()
      requires Valid()
      modifies this
      ensures Valid() && State() == Established(old(State()))
    {
      state := Connected;
    }

    method ConnectDestroyed()
      requires Valid()
      modifies this
      ensures Valid() && State() == Destroy(old(State()))
    {
      if state == Connected {
        state, writing := Disconnected, false;
        closed := true;
      }
    }

    method HandleClose()
      requires Valid()
      modifies this
      ensures Valid() && State() == Close(old(State()))
    {
      state := Disconnected;
      writing := false;
      closed := true;
    }

    method ShutdownInLoop()
      requires Valid()
      modifies this
      ensures Valid() && State() == OutputModel.ShutdownInLoop(old(State()))
    {
      if !writing {
        fins := fins + [Fin(|wire|, output.Contents(), closed)];
      }
    }

    /** A shutdown: on the loop's own thread it half-closes at once, from another thread it
        marks the connection and posts a task to the loop.  Asked of a connection that is not
        connected, it does nothing. */
    method Shutdown(inLoop: bool) returns (posted: seq<Task>)
      requires Valid()
      modifies this
      ensures Valid()
      ensures inLoop ==> Loop(State(), posted) == Happen(Loop(old(State()), []), LoopShutdown)
      ensures !inLoop && old(state) == Connected ==>
        Loop(State(), posted) == Happen(Happen(Loop(old(State()), []), MarkDisconnecting), Post(OutputModel.Shutdown))
      ensures old(state) != Connected ==> State() == old(State()) && posted == []
    {
      posted := [];
      if state == Connected {
        state := Disconnecting;
        if inLoop {
          ShutdownInLoop();
        } else {
          posted := posted + [OutputModel.Shutdown];
        }
      }
    }

    /** A send: on the loop's own thread it writes at once, from another thread it posts a
        task to the loop. */
    method SendMessage(msg: seq<byte>, inLoop: bool, w: WriteResult) returns (posted: seq<Task>)
      requires Valid()
      modifies this, output, output.data
      ensures Valid() && (output.data == old(output.data) || fresh(output.data))
      ensures inLoop ==> Loop(State(), posted) == Happen(Loop(old(State()), []), LoopSend(msg, w))
      ensures !inLoop && old(state) == Connected ==>
        Loop(State(), posted) == Happen(Loop(old(State()), []), Post(Send(msg)))
      ensures old(state) != Connected ==> State() == old(State()) && posted == []
    {
      hide OutputModel.SendInLoop;
      posted := [];
      if state == Connected {
        if inLoop {
          SendInLoop(msg, w);
        } else {
          posted := posted + [Send(msg)];
        }
      }
    }

    /** Writes straight to the socket when nothing is queued; the rest goes to the buffer. */
    method SendInLoop(msg: seq<byte>, w: WriteResult)
      requires Valid()
      modifies this, output, output.data
      ensures Valid() && (output.data == old(output.data) || fresh(output.data))
      ensures State() == OutputModel.SendInLoop(old(State()), msg, w)
    {
      if state == Disconnected {
        return;
      }
      var remaining, nwrote := |msg|, 0;
      if !writing && output.Readable() == 0 {
        if w.n >= 0 {
          nwrote := Clip(w.n, |msg|);
          remaining := |msg| - nwrote;
        } else if w.errno != Again && w.errno != Interrupted {
          HandleClose();
          return;
        }
      }
      wire := wire + msg[..nwrote];
      accepted := accepted + [msg];
      if remaining > 0 {
        output.Append(msg[nwrote..]);
        writing := true;
      }
    }

    /** Writes until the buffer is empty or the system has had enough. */
    method HandleWrite(ws: seq<WriteResult>)
      requires Valid()
      modifies this, output, output.data
      ensures Valid() && output.data == old(output.data)
      ensures State() == OutputModel.HandleWrite(old(State()), ws)
    {
      hide Flush;
      if !writing {
        return;
      }
      var i := 0;
      assert ws[0..] == ws;
      while output.Readable() > 0
        invariant 0 <= i <= |ws| && Valid() && writing && output.data == old(output.data)
        invariant Flush(State(), ws[i..]) == Flush(old(State()), ws)
        decreases |ws| - i
      {
        FlushUnrolls(State(), ws, i);
        if i == |ws| {
          return;
        }
        var w := ws[i];
        i := i + 1;
        if w.n > 0 {
          var n := Clip(w.n, output.Readable());
          wire := wire + output.Peek(n);
          output.Retrieve(n);
        } else {
          if w.errno == Again {
            return;
          }
          if w.errno == Interrupted {
            continue;
          }
          HandleClose();
          return;
        }
      }
      FlushUnrolls(State(), ws, i);
      writing := false;
      if state == Disconnecting {
        ShutdownInLoop();
      }
    }

    static lemma FlushUnrolls(c: Conn, ws: seq<WriteResult>, i: nat)
      requires i <= |ws|
      ensures
        Flush(c, ws[i..]) ==
        if c.out == [] then
          (if c.state == Disconnecting then OutputModel.ShutdownInLoop(c.(writing := false)) else c.(writing := false))
        else if i == |ws| then c
        else if ws[i].n > 0 then
          var k := Clip(ws[i].n, |c.out|);
          Flush(c.(wire := c.wire + c.out[..k], out := c.out[k..]), ws[i + 1..])
        else
          match ws[i].errno
          case Again => c
          case Interrupted => Flush(c, ws[i + 1..])
          case Other => Close(c)
    {
      if i < |ws| {
        assert ws[i..][0] == ws[i] && ws[i..][1..] == ws[i + 1..];
      }
    }
  }
}
