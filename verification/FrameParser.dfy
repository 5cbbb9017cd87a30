/** The client's receive path. */
module FrameParser {
  import opened Prelude
  import opened Framing

  const INITIAL_CAPACITY: nat := 8192
  const READ_SIZE: nat := 8192
  const MAX_CAPACITY: nat := 131072

  /** The capacity after doubling until `need` bytes fit. */
  function Grown(capacity: nat, need: nat): (r: nat)
    requires capacity > 0
    ensures r >= need && r >= capacity
    decreases need - capacity
  {
    if need <= capacity then capacity else Grown(capacity * 2, need)
  }

  /** The capacities the client ever has. */
  predicate Usual(capacity: nat) {
    capacity in {8192, 16384, 32768, 65536, 131072}
  }

  lemma {:induction false} GrownStaysUsual(capacity: nat, need: nat)
    requires Usual(capacity) && need <= MAX_CAPACITY
    ensures Usual(Grown(capacity, need))
    decreases MAX_CAPACITY - capacity
  {
    if need > capacity {
      GrownStaysUsual(capacity * 2, need);
    }
  }

  class FrameParser {
    var buf: array<byte>
    var size: nat
    var corrupt: bool

    ghost predicate Valid()
      reads this
    {
      size <= buf.Length && buf.Length > 0
    }

    function State(): Client
      requires Valid()
      reads this, buf
    {
      Client(buf[..size], corrupt)
    }

    constructor ()
      ensures Valid() && State() == NewClient && fresh(buf) && buf.Length == INITIAL_CAPACITY
    {
      buf := new byte[INITIAL_CAPACITY](_ => 0);
      size, corrupt := 0, false;
    }

    method Append(data: seq<byte>)
      requires Valid()
      modifies this, buf
      ensures Valid() && (buf == old(buf) || fresh(buf))
      ensures State() == Appended(old(State()), data)
      ensures buf.Length == if corrupt then old(buf.Length) else Grown(old(buf.Length), old(size) + |data|)
    {
      if corrupt {
        return;
      }
      if size + |data| > buf.Length {
        var cap := buf.Length * 2;
        while cap < size + |data|
          invariant cap > 0 && Grown(cap, size + |data|) == Grown(buf.Length, size + |data|)
          decreases size + |data| - cap
        {
          cap := cap * 2;
        }
        Resize(cap);
      }
      CopyIn(data);
    }

    method Resize(cap: nat)
      requires Valid() && cap >= size && cap > 0
      modifies this`buf
      ensures Valid() && fresh(buf) && buf.Length == cap && buf[..size] == old(buf[..size])
    {
      var bigger := new byte[cap](_ => 0);
      var i := 0;
      while i < size
        invariant 0 <= i <= size && bigger[..i] == buf[..i]
        modifies bigger
      {
        bigger[i] := buf[i];
        i := i + 1;
      }
      buf := bigger;
    }

    method CopyIn(data: seq<byte>)
      requires Valid() && size + |data| <= buf.Length
      modifies this`size, buf
      ensures Valid() && buf[..size] == old(buf[..size]) + data && size == old(size) + |data|
    {
      ghost var before := buf[..size];
      var i := 0;
      while i < |data|
        invariant 0 <= i <= |data| && buf[..size + i] == before + data[..i]
        modifies buf
      {
        buf[size + i] := data[i];
        i := i + 1;
      }
      size := size + |data|;
    }

    /** Takes the first frame if it is complete; a bad length corrupts the parser for good.
        The length is computed with 32-bit signed arithmetic. */
    method TryTake() returns (r: Option<Message>)
      requires Valid()
      modifies this`size, this`corrupt, buf
      ensures Valid() && (State(), r) == Take(old(State()))
    {
      hide Length, SignedLength, LegalLength;
      if corrupt || size < HEADER_LEN {
        return None;
      }
      ghost var before := buf[..size];
      assert before == before[..HEADER_LEN] + before[HEADER_LEN..] && before[..HEADER_LEN] == buf[..HEADER_LEN];
      var len := SignedLength(buf[..HEADER_LEN]);
      SignDoesNotMatter(buf[..HEADER_LEN]);
      SameLength(before[..HEADER_LEN], before[HEADER_LEN..]);
      if len < ID_LEN || len > MAX_FRAME_LEN {
        corrupt := true;
        return None;
      }
      if size < HEADER_LEN + len {
        return None;
      }
      var id := (buf[4] as nat * 256 + buf[5] as nat) as MessageId;
      var body := buf[HEADER_LEN + ID_LEN..HEADER_LEN + len];
      assert body == before[HEADER_LEN + ID_LEN..HEADER_LEN + len];
      Drop(HEADER_LEN + len);
      r := Some(Message(id, body));
    }

    /** Moves the remaining bytes to the front. */
    method Drop(consumed: nat)
      requires Valid() && consumed <= size
      modifies this`size, buf
      ensures Valid() && buf[..size] == old(buf[..size])[consumed..]
    {
      ghost var before := buf[..size];
      var i := 0;
      while i < size - consumed
        invariant 0 <= i <= size - consumed && buf[..i] == before[consumed..consumed + i]
        invariant forall k | consumed + i <= k < size :: buf[k] == before[k]
        modifies buf
      {
        buf[i] := buf[consumed + i];
        i := i + 1;
      }
      size := size - consumed;
    }
  }

  lemma TakeShrinks(c: Client)
    ensures |Take(c).0.held| <= |c.held| && (Take(c).1.Some? ==> |Take(c).0.held| < |c.held|)
  {
  }

  /** Takes frames until there is none. */
  method Drain(parser: FrameParser, ghost run: Run) returns (taken: seq<Message>, ghost after: Run)
    requires parser.Valid() && Tracks(run) && run.c == parser.State()
    modifies parser`size, parser`corrupt, parser.buf
    ensures parser.Valid() && Tracks(after) && after == Run(parser.State(), run.stream, run.taken + taken, true)
  {
    hide Take, Tracks;
    TakeTracks(run);
    TakeShrinks(run.c);
    after := Do(run, TryTake);
    var r := parser.TryTake();
    taken := [];
    while r.Some?
      invariant parser.Valid() && Tracks(after)
      invariant after == Run(parser.State(), run.stream, run.taken + taken + (if r.Some? then [r.value] else []),
        r.None?)
      decreases parser.size, r.Some?
    {
      taken := taken + [r.value];
      TakeTracks(after);
      TakeShrinks(after.c);
      after := Do(after, TryTake);
      r := parser.TryTake();
    }
  }

  lemma FlattenPrefix(chunks: seq<seq<byte>>, i: nat)
    requires i < |chunks|
    ensures Flatten(chunks[..i + 1]) == Flatten(chunks[..i]) + chunks[i]
  {
    assert chunks[..i + 1] == chunks[..i] + [chunks[i]];
    FlattenConcat(chunks[..i], [chunks[i]]);
    assert Flatten([chunks[i]]) == chunks[i] + Flatten([]);
  }

  /** What an emptied parser means for the stream so far and for the whole stream. */
  lemma Verdict(run: Run, chunks: seq<seq<byte>>, i: nat)
    requires Tracks(run) && run.failed && i <= |chunks| && run.stream == Flatten(chunks[..i])
    ensures run.c.corrupt || i == |chunks| ==>
      run.taken == Scan(Flatten(chunks)).msgs && run.c.corrupt == Scan(Flatten(chunks)).bad
    ensures !run.c.corrupt ==> |run.c.held| < HEADER_LEN + MAX_FRAME_LEN
  {
    hide Scan, ParseOne;
    FlattenConcat(chunks[..i], chunks[i..]);
    assert chunks == chunks[..i] + chunks[i..];
    ScanSplit(run.stream, Flatten(chunks[i..]));
    if !run.c.corrupt {
      DrainedIsShort(run.c.held);
      ScanUnrolls(run.c.held);
      assert run.taken + [] == run.taken;
      if i == |chunks| {
        assert chunks[..i] == chunks;
      }
    }
  }

  /**
   The receiving thread: reads of at most 8 KiB, each followed by taking every frame, until
   the peer closes or the stream is corrupt.  It enqueues exactly the frames of the stream,
   and the parser never needs more than 128 KiB.
   */
  method ReceiveLoop(chunks: seq<seq<byte>>) returns (queue: seq<Message>, corrupt: bool, capacity: nat)
    requires forall i | 0 <= i < |chunks| :: 1 <= |chunks[i]| <= READ_SIZE
    ensures queue == Scan(Flatten(chunks)).msgs && corrupt == Scan(Flatten(chunks)).bad
    ensures capacity <= MAX_CAPACITY
  {
    hide Scan, Take, ParseOne, Tracks, Grown, Flatten;
    var parser := new FrameParser();
    queue := [];
    var i := 0;
    ghost var run := Start.(failed := true);
    StartTracks();
    assert chunks[..0] == [];
    while i < |chunks|
      invariant 0 <= i <= |chunks| && parser.Valid() && fresh(parser) && fresh(parser.buf)
      invariant Usual(parser.buf.Length) && !parser.corrupt && parser.size < HEADER_LEN + MAX_FRAME_LEN
      invariant run == Run(parser.State(), Flatten(chunks[..i]), queue, true) && Tracks(run)
    {
      GrownStaysUsual(parser.buf.Length, parser.size + |chunks[i]|);
      AppendTracks(run, chunks[i]);
      FlattenPrefix(chunks, i);
      run := Do(run, Call.Append(chunks[i]));
      parser.Append(chunks[i]);
      var more;
      more, run := Drain(parser, run);
      queue := queue + more;
      i := i + 1;
      Verdict(run, chunks, i);
      if parser.corrupt {
        return queue, true, parser.buf.Length;
      }
    }
    Verdict(run, chunks, i);
    corrupt, capacity := false, parser.buf.Length;
  }

  lemma StartTracks()
    ensures Tracks(Start.(failed := true)) && Flatten<byte>([]) == []
  {
  }
}
