/** The server's receive path: bytes arrive in a buffer, complete frames are handed out. */
module ProtobufCodec {
  import opened Prelude
  import opened Framing
  import Buffer

  /** Takes every complete frame out of the buffer; a bad length empties it and asks for a
      shutdown. */
  method OnMessage(buf: Buffer.Buffer) returns (msgs: seq<Message>, shut: bool)
    requires buf.Valid()
    modifies buf`reader, buf`writer
    ensures buf.Valid()
    ensures
      var r := Scan(old(buf.Contents()));
      msgs == r.msgs && shut == r.bad && buf.Contents() == if r.bad then [] else r.rest
  {
    hide Scan, ParseOne, Length, Unread, MessageIn;
    msgs, shut := [], false;
    ghost var start := buf.Contents();
    UnreadAtStart(start);
    while buf.Readable() >= HEADER_LEN
      invariant buf.Valid() && !shut
      invariant Unread(start, msgs, buf.Contents())
      decreases buf.Readable()
    {
      UnreadStep(start, msgs, buf.Contents());
      var len := PeekLength(buf);
      if len < ID_LEN || len > MAX_FRAME_LEN {
        buf.RetrieveAll();
        return msgs, true;
      }
      if buf.Readable() < HEADER_LEN + len {
        return;
      }
      var m := TakeFrame(buf, len);
      msgs := msgs + [m];
    }
    UnreadEnd(start, msgs, buf.Contents());
  }

  method PeekLength(buf: Buffer.Buffer) returns (len: nat)
    requires buf.Valid() && buf.Readable() >= HEADER_LEN
    ensures len == Length(buf.Contents())
  {
    hide Length;
    ghost var s := buf.Contents();
    len := Length(buf.Peek(HEADER_LEN));
    SameLength(s[..HEADER_LEN], s[HEADER_LEN..]);
    assert s[..HEADER_LEN] + s[HEADER_LEN..] == s;
  }

  method TakeFrame(buf: Buffer.Buffer, len: nat) returns (m: Message)
    requires buf.Valid() && ID_LEN <= len && HEADER_LEN + len <= buf.Readable()
    modifies buf`reader, buf`writer
    ensures buf.Valid() && m == MessageIn(old(buf.Contents()), len)
    ensures buf.Contents() == old(buf.Contents())[HEADER_LEN + len..]
  {
    ghost var s := buf.Contents();
    var frame := buf.Peek(HEADER_LEN + len);
    assert frame[HEADER_LEN + ID_LEN..] == s[HEADER_LEN + ID_LEN..HEADER_LEN + len];
    m := Message((frame[4] as nat * 256 + frame[5] as nat) as MessageId, frame[HEADER_LEN + ID_LEN..]);
    buf.Retrieve(HEADER_LEN + len);
  }

  /** What is handed out so far followed by what the unread bytes still hold is everything. */
  ghost predicate Unread(start: seq<byte>, msgs: seq<Message>, s: seq<byte>) {
    Scan(start) == Scan(s).(msgs := msgs + Scan(s).msgs)
  }

  lemma UnreadAtStart(start: seq<byte>)
    ensures Unread(start, [], start)
  {
    hide Scan;
    assert [] + Scan(start).msgs == Scan(start).msgs;
  }

  lemma UnreadEnd(start: seq<byte>, msgs: seq<Message>, s: seq<byte>)
    requires Unread(start, msgs, s) && |s| < HEADER_LEN
    ensures Scan(start) == Scanned(msgs, s, false)
  {
    hide Scan;
    ScanUnrolls(s);
  }

  /** What the loop must do with the bytes in front of it. */
  lemma UnreadStep(start: seq<byte>, msgs: seq<Message>, s: seq<byte>)
    requires Unread(start, msgs, s) && |s| >= HEADER_LEN
    ensures
      var len := Length(s);
      if len < ID_LEN || len > MAX_FRAME_LEN then Scan(start) == Scanned(msgs, s, true)
      else if |s| < HEADER_LEN + len then Scan(start) == Scanned(msgs, s, false)
      else Unread(start, msgs + [MessageIn(s, len)], s[HEADER_LEN + len..])
  {
    hide Scan, Length;
    ScanUnrolls(s);
    var p := ParseOne(s);
    if p.Frame? {
      var more := Scan(s[p.used..]).msgs;
      assert msgs + ([p.m] + more) == msgs + [p.m] + more;
    }
  }

  /** How a round of reading ends. */
  datatype ReadEnd = Again | PeerClosed | Failed

  /** Reads until the socket has nothing more, in pieces of whatever size the system
      chooses. */
  method ReadAll(buf: Buffer.Buffer, arrived: seq<byte>)
    requires buf.Valid()
    modifies buf, buf.data
    ensures buf.Valid() && (buf.data == old(buf.data) || fresh(buf.data))
    ensures buf.Contents() == old(buf.Contents()) + arrived
  {
    var done: nat := 0;
    while done < |arrived|
      invariant done <= |arrived| && buf.Valid() && (buf.data == old(buf.data) || fresh(buf.data))
      invariant buf.Contents() == old(buf.Contents()) + arrived[..done]
    {
      var n: nat :| 1 <= n <= |arrived| - done && n <= buf.Writable() + Buffer.EXTRA;
      assert arrived[..done + n] == arrived[..done] + arrived[done..done + n];
      var got := buf.ReadFd(Some(arrived[done..done + n]));
      done := done + n;
    }
    assert arrived[..done] == arrived;
  }

  /**
   One readable event: everything is read, then the frames are handed out.  A failed read
   closes the connection without handing out anything.
   */
  method HandleRead(buf: Buffer.Buffer, arrived: seq<byte>, end: ReadEnd)
    returns (msgs: seq<Message>, shut: bool, close: bool)
    requires buf.Valid()
    modifies buf, buf.data
    ensures buf.Valid() && (buf.data == old(buf.data) || fresh(buf.data))
    ensures close == (end != Again)
    ensures end != Failed ==>
      var r := Scan(old(buf.Contents()) + arrived);
      msgs == r.msgs && shut == r.bad && buf.Contents() == if r.bad then [] else r.rest
    ensures end == Failed ==> msgs == [] && !shut && buf.Contents() == old(buf.Contents()) + arrived
  {
    hide Scan, ParseOne, Length, Unread;
    msgs, shut := [], false;
    ReadAll(buf, arrived);
    close := end != Again;
    if end == Failed {
      return;
    }
    if buf.Readable() > 0 {
      msgs, shut := OnMessage(buf);
    } else {
      assert buf.Contents() == [];
      NothingParses();
      ScanUnrolls([]);
    }
  }

  /** A connection that lives through any chunks of bytes does what `ReceiveAll` says,
      through every sliding and growing of its buffer. */
  method Serve(chunks: seq<seq<byte>>) returns (w: Server)
    ensures w == ReceiveAll(NewServer, chunks)
  {
    hide Scan;
    var buf := new Buffer.Buffer();
    w := NewServer;
    var i := 0;
    assert chunks[0..] == chunks;
    while i < |chunks|
      invariant 0 <= i <= |chunks| && buf.Valid() && fresh(buf) && fresh(buf.data) && w.held == buf.Contents()
      invariant ReceiveAll(w, chunks[i..]) == ReceiveAll(NewServer, chunks)
    {
      assert chunks[i..][0] == chunks[i] && chunks[i..][1..] == chunks[i + 1..];
      var msgs, shut, close := HandleRead(buf, chunks[i], Again);
      w := Server(w.msgs + msgs, buf.Contents(), w.shut || shut);
      i := i + 1;
    }
  }
}
