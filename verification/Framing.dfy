/**
 The frame format shared by server and client: a 4-byte big-endian length (counting the
 id and the body), a 2-byte big-endian message id, and the body.  Both receivers are
 described by one scan of a byte stream; they differ in what they do at a bad length.
 */
module Framing {
  import opened Prelude

  const HEADER_LEN: nat := 4
  const ID_LEN: nat := 2
  const MAX_FRAME_LEN: nat := 65536

  newtype MessageId = x: int | 0 <= x < 65536

  datatype Message = Message(id: MessageId, body: seq<byte>)

  /** Digit number `k` (from the right) of a number written in base 256. */
  function Digit(n: nat, k: nat): byte {
    (n / Pow256(k) % 256) as byte
  }

  function Pow256(k: nat): (p: nat)
    ensures p > 0
  {
    if k == 0 then 1 else 256 * Pow256(k - 1)
  }

  /** The length goes through a 32-bit integer. */
  function Encode(m: Message): seq<byte> {
    var len := ID_LEN + |m.body|;
    [Digit(len, 3), Digit(len, 2), Digit(len, 1), Digit(len, 0), Digit(m.id as nat, 1), Digit(m.id as nat, 0)] + m.body
  }

  predicate Fits(m: Message) {
    ID_LEN + |m.body| <= MAX_FRAME_LEN
  }

  function Length(s: seq<byte>): nat
    requires |s| >= HEADER_LEN
  {
    s[0] as nat * 0x100_0000 + s[1] as nat * 0x1_0000 + s[2] as nat * 0x100 + s[3] as nat
  }

  predicate LegalLength(len: nat) {
    ID_LEN <= len <= MAX_FRAME_LEN
  }

  /** The message in the `len` bytes behind the header. */
  function MessageIn(s: seq<byte>, len: nat): Message
    requires ID_LEN <= len && HEADER_LEN + len <= |s|
  {
    Message((s[4] as nat * 256 + s[5] as nat) as MessageId, s[HEADER_LEN + ID_LEN..HEADER_LEN + len])
  }

  datatype Parsed = More | Bad | Frame(m: Message, used: nat)

  function ParseOne(s: seq<byte>): (r: Parsed)
    ensures r.Frame? ==> HEADER_LEN + ID_LEN <= r.used <= |s| && r.used == HEADER_LEN + Length(s)
  {
    if |s| < HEADER_LEN then More
    else
      var len := Length(s);
      if !LegalLength(len) then Bad
      else if |s| < HEADER_LEN + len then More
      else
        Frame(MessageIn(s, len), HEADER_LEN + len)
  }

  /** Everything that can be taken out of a stream: the frames, the bytes left, and whether
      those begin with a bad length. */
  datatype Scanned = Scanned(msgs: seq<Message>, rest: seq<byte>, bad: bool)

  function Scan(s: seq<byte>): (r: Scanned)
    decreases |s|
  {
    match ParseOne(s)
    case More => Scanned([], s, false)
    case Bad => Scanned([], s, true)
    case Frame(m, used) => var r := Scan(s[used..]); r.(msgs := [m] + r.msgs)
  }

  // ---------------------------------------------------------------- round trip

  lemma ShortDigits(n: nat)
    ensures Digit(n, 0) as nat == n % 256 && Digit(n, 1) as nat == n / 256 % 256
    ensures Digit(n, 2) as nat == n / 0x1_0000 % 256 && Digit(n, 3) as nat == n / 0x100_0000 % 256
  {
    assert Pow256(1) == 256;
    assert Pow256(2) == 0x1_0000;
    assert Pow256(3) == 0x100_0000;
  }

  lemma DigitsRebuild(n: nat)
    ensures
      n / 0x100_0000 % 256 * 0x100_0000 + n / 0x1_0000 % 256 * 0x1_0000 + n / 256 % 256 * 256 + n % 256
        == n % 0x1_0000_0000
  {
    var a, b, c, d := n / 256, n / 0x1_0000, n / 0x100_0000, n / 0x1_0000_0000;
    assert b == a / 256 && c == b / 256 && d == c / 256;
    assert n == 256 * a + n % 256 && a == 256 * b + a % 256;
    assert b == 256 * c + b % 256 && c == 256 * d + c % 256;
    assert n % 0x1_0000_0000 == n - 0x1_0000_0000 * d;
  }

  lemma EncodedLength(m: Message, tail: seq<byte>)
    ensures |Encode(m)| == HEADER_LEN + ID_LEN + |m.body|
    ensures Length(Encode(m) + tail) == (ID_LEN + |m.body|) % 0x1_0000_0000
  {
    hide Digit;
    ShortDigits(ID_LEN + |m.body|);
    DigitsRebuild(ID_LEN + |m.body|);
  }

  /** A message on the wire, byte for byte: two bytes more than the body counts as the
      length, four bytes with the highest first, then the id, highest byte first, then the body. */
  lemma WireLayout(m: Message)
    requires Fits(m)
    ensures
      var w := Encode(m);
      && |w| == 6 + |m.body| && w[6..] == m.body
      && w[0] == 0 && w[1] as nat * 65536 + w[2] as nat * 256 + w[3] as nat == 2 + |m.body|
      && w[4] as nat * 256 + w[5] as nat == m.id as nat
  {
    hide Digit;
    ShortDigits(2 + |m.body|);
    ShortDigits(m.id as nat);
  }

  /** Exactly the messages of at most 64 KiB survive encoding, whatever follows them. */
  lemma EncodeParsesIff(m: Message, tail: seq<byte>)
    ensures ParseOne(Encode(m) + tail) == Frame(m, |Encode(m)|) <==> Fits(m)
    ensures !Fits(m) && |m.body| < 0x1_0000_0000 - ID_LEN ==> ParseOne(Encode(m) + tail) == Bad
  {
    hide Digit, Length;
    EncodedLength(m, tail);
    var s := Encode(m) + tail;
    if Fits(m) {
      ShortDigits(m.id as nat);
      assert s[4] as nat * 256 + s[5] as nat == m.id as nat;
      assert s[HEADER_LEN + ID_LEN..HEADER_LEN + Length(s)] == m.body;
    }
  }

  // ---------------------------------------------------------------- scanning in pieces

  /** Later bytes do not change what the earlier ones already decide. */
  lemma ParseMonotone(s: seq<byte>, more: seq<byte>)
    ensures !ParseOne(s).More? ==> ParseOne(s + more) == ParseOne(s)
  {
    hide LegalLength;
    if |s| >= HEADER_LEN {
      assert Length(s + more) == Length(s);
      var len := Length(s);
      if LegalLength(len) && |s| >= HEADER_LEN + len {
        assert len >= ID_LEN by { LegalMeans(len); }
        assert (s + more)[HEADER_LEN + ID_LEN..HEADER_LEN + len] == s[HEADER_LEN + ID_LEN..HEADER_LEN + len];
      }
    }
  }

  lemma LegalMeans(len: nat)
    ensures LegalLength(len) <==> ID_LEN <= len <= MAX_FRAME_LEN
  {
  }

  /** What is left after a scan is a suffix from which nothing more can be taken. */
  lemma {:induction false} ScanLeftover(s: seq<byte>)
    ensures
      var r := Scan(s);
      && |r.rest| <= |s| && r.rest == s[|s| - |r.rest|..]
      && ParseOne(r.rest) == (if r.bad then Bad else More)
    decreases |s|
  {
    hide ParseOne, Scan;
    ScanUnrolls(s);
    if ParseOne(s).Frame? {
      var used := ParseOne(s).used;
      ScanLeftover(s[used..]);
      SuffixOfSuffix(s, used, Scan(s).rest);
    } else {
      assert s[0..] == s;
    }
  }

  lemma ScanUnrolls(s: seq<byte>)
    ensures
      var p := ParseOne(s);
      if p.Frame? then
        && 0 < p.used <= |s|
        && Scan(s).rest == Scan(s[p.used..]).rest && Scan(s).bad == Scan(s[p.used..]).bad
        && Scan(s).msgs == [p.m] + Scan(s[p.used..]).msgs
      else Scan(s) == Scanned([], s, p.Bad?)
  {
    var p := ParseOne(s);
    hide ParseOne;
  }

  lemma SuffixOfSuffix(s: seq<byte>, k: nat, r: seq<byte>)
    requires k <= |s| && |r| <= |s[k..]| && r == s[k..][|s[k..]| - |r|..]
    ensures |r| <= |s| && r == s[|s| - |r|..]
  {
  }

  /** Scanning piece by piece is scanning the whole. */
  lemma {:induction false} ScanSplit(s: seq<byte>, more: seq<byte>)
    ensures
      var r := Scan(s);
      if r.bad then Scan(s + more) == Scanned(r.msgs, r.rest + more, true)
      else var q := Scan(r.rest + more); Scan(s + more) == q.(msgs := r.msgs + q.msgs)
    decreases |s|
  {
    hide ParseOne;
    ParseMonotone(s, more);
    match ParseOne(s)
    case More =>
      var q := Scan(s + more);
      assert [] + q.msgs == q.msgs;
    case Bad =>
    case Frame(m, used) =>
      FrameUses(s);
      assert (s + more)[used..] == s[used..] + more;
      ScanSplit(s[used..], more);
      ConsAssociates(m, Scan(s[used..]).msgs, Scan(Scan(s[used..]).rest + more).msgs);
  }

  lemma ConsAssociates(m: Message, a: seq<Message>, b: seq<Message>)
    ensures [m] + (a + b) == [m] + a + b
  {
  }

  lemma FrameUses(s: seq<byte>)
    requires ParseOne(s).Frame?
    ensures ParseOne(s).used <= |s|
  {
  }

  // ---------------------------------------------------------------- concatenated encodings

  function EncodeAll(ms: seq<Message>): seq<byte> {
    if ms == [] then [] else Encode(ms[0]) + EncodeAll(ms[1..])
  }

  /** `s` holds the first `k` messages and a proper beginning of the next one. */
  ghost predicate CutAt(ms: seq<Message>, s: seq<byte>, k: nat, rest: seq<byte>) {
    && k <= |ms| && s == EncodeAll(ms[..k]) + rest
    && (if k == |ms| then rest == [] else rest < Encode(ms[k]))
  }

  lemma ProperPrefixIncomplete(m: Message, rest: seq<byte>)
    requires Fits(m) && rest < Encode(m)
    ensures ParseOne(rest) == More
  {
    hide Digit, Length;
    if |rest| >= HEADER_LEN {
      var tail := Encode(m)[|rest|..];
      assert rest + tail == Encode(m) + [];
      EncodedLength(m, []);
      SameLength(rest, tail);
    }
  }

  lemma SameLength(s: seq<byte>, more: seq<byte>)
    requires |s| >= HEADER_LEN
    ensures Length(s + more) == Length(s)
  {
  }

  /** Any beginning of a stream of encoded messages scans to the messages that are complete
      in it, and leaves the beginning of the next. */
  lemma {:induction false} ScanEncoded(ms: seq<Message>, s: seq<byte>, future: seq<byte>)
    requires (forall i | 0 <= i < |ms| :: Fits(ms[i])) && s + future == EncodeAll(ms)
    ensures
      var r := Scan(s);
      && !r.bad && |r.msgs| <= |ms| && r.msgs == ms[..|r.msgs|]
      && CutAt(ms, s, |r.msgs|, r.rest)
    decreases |ms|
  {
    hide ParseOne, Encode, Fits;
    if ms == [] {
      assert s == [];
      NothingParses();
    } else {
      var e := Encode(ms[0]);
      if |s| < |e| {
        assert s == (s + future)[..|s|] == e[..|s|];
        ProperPrefixIncomplete(ms[0], s);
        assert EncodeAll(ms[..0]) == [];
      } else {
        assert (s + future)[..|e|] == e == s[..|e|];
        var s1 := s[|e|..];
        assert s == e + s1;
        EncodeParsesIff(ms[0], s1);
        assert s1 + future == EncodeAll(ms[1..]) by {
          assert s1 + future == (s + future)[|e|..];
        }
        FrameUses(s);
        ScanEncoded(ms[1..], s1, future);
        ConsCut(ms, s1, |Scan(s1).msgs|, Scan(s1).rest);
        assert ms[..|Scan(s1).msgs| + 1] == [ms[0]] + ms[1..][..|Scan(s1).msgs|];
      }
    }
  }

  lemma NothingParses()
    ensures ParseOne([]) == More
  {
  }

  lemma ConsCut(ms: seq<Message>, s: seq<byte>, k: nat, rest: seq<byte>)
    requires ms != [] && CutAt(ms[1..], s, k, rest)
    ensures CutAt(ms, Encode(ms[0]) + s, k + 1, rest)
  {
    hide Encode;
    assert ms[..k + 1][1..] == ms[1..][..k];
    assert Encode(ms[0]) + s == EncodeAll(ms[..k + 1]) + rest;
  }

  lemma {:induction false} EncodeAllConcat(a: seq<Message>, b: seq<Message>)
    ensures EncodeAll(a + b) == EncodeAll(a) + EncodeAll(b)
  {
    hide Encode;
    if a == [] {
      assert a + b == b;
    } else {
      assert (a + b)[1..] == a[1..] + b;
      EncodeAllConcat(a[1..], b);
    }
  }

  // ---------------------------------------------------------------- the server's receiver

  /** What one connection's receiver has done: messages handed out, bytes held, whether it
      ever asked for a shutdown. */
  datatype Server = Server(msgs: seq<Message>, held: seq<byte>, shut: bool)

  const NewServer: Server := Server([], [], false)

  /** After a bad length the server throws its buffer away and goes on with the next chunk. */
  function Receive(v: Server, chunk: seq<byte>): Server {
    var r := Scan(v.held + chunk);
    Server(v.msgs + r.msgs, if r.bad then [] else r.rest, v.shut || r.bad)
  }

  function ReceiveAll(v: Server, chunks: seq<seq<byte>>): Server
    decreases |chunks|
  {
    if chunks == [] then v else ReceiveAll(Receive(v, chunks[0]), chunks[1..])
  }

  predicate Drained(held: seq<byte>) {
    ParseOne(held) == More
  }

  lemma ReceiveDrained(v: Server, chunk: seq<byte>)
    ensures Drained(Receive(v, chunk).held)
  {
    hide ParseOne;
    ScanLeftover(v.held + chunk);
    NothingParses();
  }

  lemma ScanDrained(held: seq<byte>)
    requires Drained(held)
    ensures Scan(held) == Scanned([], held, false)
  {
  }

  /** Some frame could be found in `s` by starting somewhere in it. */
  ghost predicate HidesFrame(s: seq<byte>) {
    exists e: nat | e <= |s| :: ParseOne(s[e..]).Frame?
  }

  /** Whatever the chunks, the server hands out at least what a scan of the whole stream
      gives, in that order and first, and it asks for a shutdown exactly when the stream has
      a bad length.  Without one its state is exactly the scan's. */
  lemma {:induction false} ServerFollowsScan(v: Server, chunks: seq<seq<byte>>)
    requires Drained(v.held) && !v.shut
    ensures
      var r, w := Scan(v.held + Flatten(chunks)), ReceiveAll(v, chunks);
      && v.msgs + r.msgs <= w.msgs && w.shut == r.bad
      && (!r.bad ==> w == Server(v.msgs + r.msgs, r.rest, false))
    decreases |chunks|
  {
    hide ParseOne, Scan;
    if chunks == [] {
      assert v.held + Flatten(chunks) == v.held;
      ScanDrained(v.held);
    } else {
      var x := v.held + chunks[0];
      assert v.held + Flatten(chunks) == x + Flatten(chunks[1..]);
      ScanSplit(x, Flatten(chunks[1..]));
      assert x + [] == x;
      ReceiveDrained(v, chunks[0]);
      var v1 := Receive(v, chunks[0]);
      if Scan(x).bad {
        OnlyGrows(v1, chunks[1..]);
      } else {
        ServerFollowsScan(v1, chunks[1..]);
      }
    }
  }

  lemma {:induction false} OnlyGrows(v: Server, chunks: seq<seq<byte>>)
    ensures v.msgs <= ReceiveAll(v, chunks).msgs && (v.shut ==> ReceiveAll(v, chunks).shut)
    decreases |chunks|
  {
    if chunks != [] {
      hide Scan;
      OnlyGrows(Receive(v, chunks[0]), chunks[1..]);
    }
  }

  /**
   Cut the encodings of any list of messages (each of at most 64 KiB) into any chunks and
   stop anywhere: the server has handed out exactly the messages complete so far, holds
   exactly the beginning of the next, and sees nothing wrong.
   */
  lemma ServerDeliversExactly(ms: seq<Message>, chunks: seq<seq<byte>>, future: seq<byte>)
    requires forall i | 0 <= i < |ms| :: Fits(ms[i])
    requires Flatten(chunks) + future == EncodeAll(ms)
    ensures
      var w := ReceiveAll(NewServer, chunks);
      && !w.shut && |w.msgs| <= |ms| && w.msgs == ms[..|w.msgs|]
      && CutAt(ms, Flatten(chunks), |w.msgs|, w.held)
    ensures future == [] ==> ReceiveAll(NewServer, chunks) == Server(ms, [], false)
  {
    hide ParseOne, Encode, Fits, Receive, ReceiveAll, Scan;
    var s := Flatten(chunks);
    ScanEncoded(ms, s, future);
    NothingParses();
    assert NewServer.held + s == s;
    ServerFollowsScan(NewServer, chunks);
    var w := ReceiveAll(NewServer, chunks);
    assert w.msgs == Scan(s).msgs;
    if future == [] {
      assert s == EncodeAll(ms);
      WholeCut(ms, |w.msgs|, w.held);
    }
  }

  lemma WholeCut(ms: seq<Message>, k: nat, rest: seq<byte>)
    requires CutAt(ms, EncodeAll(ms), k, rest)
    ensures k == |ms| && rest == [] && ms[..k] == ms
  {
    hide Encode, EncodeAll;
    assert ms[..|ms|] == ms;
    if k < |ms| {
      EncodeAllAt(ms, k);
    }
  }

  lemma EncodeAllAt(ms: seq<Message>, k: nat)
    requires k < |ms|
    ensures |EncodeAll(ms)| >= |EncodeAll(ms[..k])| + |Encode(ms[k])|
  {
    hide Encode;
    assert EncodeAll(ms[k..]) == Encode(ms[k]) + EncodeAll(ms[k..][1..]);
    hide EncodeAll;
    assert ms == ms[..k] + ms[k..];
    EncodeAllConcat(ms[..k], ms[k..]);
  }

  // ---------------------------------------------------------------- after a bad length

  lemma {:induction false} NothingHidden(v: Server, chunks: seq<seq<byte>>)
    requires !HidesFrame(v.held + Flatten(chunks))
    ensures ReceiveAll(v, chunks).msgs == v.msgs
    decreases |chunks|
  {
    if chunks != [] {
      hide ParseOne;
      var x, rest := v.held + chunks[0], Flatten(chunks[1..]);
      var t := v.held + Flatten(chunks);
      assert t == x + rest;
      ParseMonotone(x, rest);
      assert t[0..] == t;
      assert !ParseOne(x).Frame?;
      var v1 := Receive(v, chunks[0]);
      assert v1.msgs == v.msgs;
      if ParseOne(x).Bad? {
        SuffixHides(t, |x|);
        assert t[|x|..] == v1.held + rest;
      }
      NothingHidden(v1, chunks[1..]);
    }
  }

  lemma SuffixHides(s: seq<byte>, k: nat)
    requires k <= |s| && !HidesFrame(s)
    ensures !HidesFrame(s[k..])
  {
    hide ParseOne;
    forall e: nat | e <= |s[k..]| ensures !ParseOne(s[k..][e..]).Frame? {
      assert s[k..][e..] == s[k + e..];
    }
  }

  /** Beyond the bad length at which the scan stops, some chunk boundary could uncover a
      frame. */
  ghost predicate Ambiguous(s: seq<byte>) {
    Scan(s).bad && |Scan(s).rest| >= HEADER_LEN && HidesFrame(Scan(s).rest[HEADER_LEN..])
  }

  /** All ways to cut a stream make the server hand out the same messages. */
  ghost predicate ChunkingIrrelevant(s: seq<byte>) {
    forall chunks: seq<seq<byte>> | Flatten(chunks) == s :: ReceiveAll(NewServer, chunks).msgs == Scan(s).msgs
  }

  lemma {:induction false} UnambiguousAgrees(v: Server, chunks: seq<seq<byte>>)
    requires Drained(v.held) && !v.shut && !Ambiguous(v.held + Flatten(chunks))
    ensures ReceiveAll(v, chunks).msgs == v.msgs + Scan(v.held + Flatten(chunks)).msgs
    decreases |chunks|
  {
    hide ParseOne, HidesFrame, Scan, Drained;
    if chunks == [] {
      assert v.held + Flatten(chunks) == v.held;
      ScanDrained(v.held);
    } else {
      var x, rest := v.held + chunks[0], Flatten(chunks[1..]);
      var t := v.held + Flatten(chunks);
      assert t == x + rest;
      ScanSplit(x, rest);
      ReceiveDrained(v, chunks[0]);
      var v1 := Receive(v, chunks[0]);
      if Scan(x).bad {
        ScanLeftover(x);
        BadIsLong(Scan(x).rest);
        var cut := |Scan(x).rest| - HEADER_LEN;
        SuffixHides(Scan(t).rest[HEADER_LEN..], cut);
        assert Scan(t).rest[HEADER_LEN..][cut..] == v1.held + rest;
        NothingHidden(v1, chunks[1..]);
      } else {
        UnambiguousAgrees(v1, chunks[1..]);
      }
    }
  }

  lemma BadIsLong(s: seq<byte>)
    requires ParseOne(s) == Bad
    ensures |s| >= HEADER_LEN
  {
  }

  lemma AmbiguousDisagrees(s: seq<byte>) returns (chunks: seq<seq<byte>>)
    requires Ambiguous(s)
    ensures Flatten(chunks) == s && ReceiveAll(NewServer, chunks).msgs != Scan(s).msgs
  {
    hide ParseOne, Scan;
    var rest := Scan(s).rest;
    ScanLeftover(s);
    var e: nat :| e <= |rest[HEADER_LEN..]| && ParseOne(rest[HEADER_LEN..][e..]).Frame?;
    var tail := rest[HEADER_LEN..][e..];
    assert tail == s[|s| - |tail|..];
    var front := s[..|s| - |tail|];
    assert s == front + tail;
    FrontScans(s, front, tail);
    FrameScans(tail);
    chunks := [front, tail];
    TwoChunks(front, tail);
  }

  lemma FrameScans(s: seq<byte>)
    requires ParseOne(s).Frame?
    ensures Scan(s).msgs != []
  {
    hide ParseOne;
    FrameUses(s);
  }

  lemma ReceiveOne(v: Server, chunk: seq<byte>)
    ensures ReceiveAll(v, [chunk]) == Receive(v, chunk)
  {
    hide Receive;
    assert [chunk][1..] == [];
  }

  lemma ReceiveTwo(v: Server, front: seq<byte>, tail: seq<byte>)
    ensures ReceiveAll(v, [front, tail]) == Receive(Receive(v, front), tail)
  {
    hide Receive;
    assert [front, tail][1..] == [tail];
    ReceiveOne(Receive(v, front), tail);
  }

  lemma FlattenTwo(front: seq<byte>, tail: seq<byte>)
    ensures Flatten([front, tail]) == front + tail
  {
    assert [front, tail][1..] == [tail] && [tail][1..] == [];
    assert Flatten([tail]) == tail + Flatten([]);
  }

  lemma TwoChunks(front: seq<byte>, tail: seq<byte>)
    requires Scan(front).bad
    ensures Flatten([front, tail]) == front + tail
    ensures ReceiveAll(NewServer, [front, tail]).msgs == Scan(front).msgs + Scan(tail).msgs
  {
    hide Scan, ReceiveAll, Flatten;
    FlattenTwo(front, tail);
    ReceiveTwo(NewServer, front, tail);
    assert NewServer.held + front == front && [] + tail == tail;
    assert [] + Scan(front).msgs == Scan(front).msgs;
  }

  /** Dropping bytes behind the bad length leaves the scan bad, with the same messages. */
  lemma FrontScans(s: seq<byte>, front: seq<byte>, tail: seq<byte>)
    requires s == front + tail && Scan(s).bad && |tail| + HEADER_LEN <= |Scan(s).rest|
    ensures Scan(front).bad && Scan(front).msgs == Scan(s).msgs
  {
    hide ParseOne, Scan;
    ScanSplit(front, tail);
    if !Scan(front).bad {
      var left := Scan(front).rest;
      ScanLeftover(front);
      var q := Scan(left + tail);
      ScanLeftover(left + tail);
      ScanFirst(left + tail);
      LeavesLessThanHeader(left, tail, q.rest);
    }
  }

  lemma ScanFirst(s: seq<byte>)
    ensures !ParseOne(s).Frame? ==> Scan(s).msgs == [] && Scan(s).rest == s
    ensures ParseOne(s).Frame? ==> |Scan(s).rest| <= |s| - ParseOne(s).used
  {
    hide ParseOne;
    if ParseOne(s).Frame? {
      FrameUses(s);
      ScanLeftover(s[ParseOne(s).used..]);
    }
  }

  /** An incomplete frame followed by `tail` cannot leave a whole bad length in front of `tail`. */
  lemma LeavesLessThanHeader(left: seq<byte>, tail: seq<byte>, rest: seq<byte>)
    requires ParseOne(left) == More && ParseOne(rest) == Bad
    requires
      if ParseOne(left + tail).Frame? then |rest| <= |left + tail| - ParseOne(left + tail).used
      else rest == left + tail
    ensures |rest| < |tail| + HEADER_LEN
  {
    if |left| >= HEADER_LEN {
      SameLength(left, tail);
    }
  }

  /** The server's deliveries are independent of the cutting exactly when the stream hides no
      frame behind its first bad length. */
  lemma ChunkingIrrelevantIff(s: seq<byte>)
    ensures ChunkingIrrelevant(s) <==> !Ambiguous(s)
  {
    hide ParseOne, Scan, ReceiveAll, Ambiguous;
    if Ambiguous(s) {
      var chunks := AmbiguousDisagrees(s);
    } else {
      NothingParses();
      forall chunks: seq<seq<byte>> | Flatten(chunks) == s
        ensures ReceiveAll(NewServer, chunks).msgs == Scan(s).msgs
      {
        assert NewServer.held + s == s;
        UnambiguousAgrees(NewServer, chunks);
        assert [] + Scan(s).msgs == Scan(s).msgs;
      }
    }
  }

  /** A frame sent behind a zero length is ignored in one read and delivered in two. */
  lemma KeepsParsingExample(m: Message)
    requires Fits(m)
    ensures
      var zero: seq<byte> := [0, 0, 0, 0];
      && ReceiveAll(NewServer, [zero + Encode(m)]).msgs == []
      && ReceiveAll(NewServer, [zero, Encode(m)]).msgs == [m]
  {
    var zero: seq<byte> := [0, 0, 0, 0];
    var e := Encode(m);
    assert Scan(zero + e) == Scanned([], zero + e, true) && Scan(zero) == Scanned([], zero, true);
    EncodeParsesIff(m, []);
    assert e + [] == e && e[|e|..] == [];
    NothingParses();
    hide ParseOne, Encode, Fits;
    assert Scan(e).msgs == [m] + Scan([]).msgs == [m];
    hide Scan;
    TwoChunks(zero, e);
    ReceiveOne(NewServer, zero + e);
    assert NewServer.held + (zero + e) == zero + e;
  }

  // ---------------------------------------------------------------- the client's receiver

  /** The client's parser: bytes held and the sticky verdict; beside it the frames taken and
      everything ever appended. */
  datatype Client = Client(held: seq<byte>, corrupt: bool)

  const NewClient: Client := Client([], false)

  function Appended(c: Client, chunk: seq<byte>): Client {
    if c.corrupt then c else c.(held := c.held + chunk)
  }

  function Take(c: Client): (Client, Option<Message>) {
    if c.corrupt then (c, None)
    else
      match ParseOne(c.held)
      case More => (c, None)
      case Bad => (c.(corrupt := true), None)
      case Frame(m, used) => (c.(held := c.held[used..]), Some(m))
  }

  datatype Call = Append(chunk: seq<byte>) | TryTake

  /** A run of the parser with its stream and what was taken; `failed` says that the last
      call was a take that returned nothing. */
  datatype Run = Run(c: Client, stream: seq<byte>, taken: seq<Message>, failed: bool)

  function Do(r: Run, call: Call): Run {
    match call
    case Append(chunk) => Run(Appended(r.c, chunk), r.stream + chunk, r.taken, false)
    case TryTake =>
      var (c, m) := Take(r.c);
      Run(c, r.stream, if m.Some? then r.taken + [m.value] else r.taken, m.None?)
  }

  function DoAll(r: Run, calls: seq<Call>): Run
    decreases |calls|
  {
    if calls == [] then r else DoAll(Do(r, calls[0]), calls[1..])
  }

  const Start: Run := Run(NewClient, [], [], false)

  /** What the parser keeps in any use of it. */
  ghost predicate Tracks(r: Run) {
    && (r.c.corrupt ==> Scan(r.stream).bad && r.taken == Scan(r.stream).msgs)
    && (!r.c.corrupt ==>
          var q := Scan(r.c.held);
          Scan(r.stream) == q.(msgs := r.taken + q.msgs))
    && (r.failed && !r.c.corrupt ==> ParseOne(r.c.held) == More)
  }

  lemma AppendTracks(r: Run, chunk: seq<byte>)
    requires Tracks(r)
    ensures Tracks(Do(r, Append(chunk)))
  {
    hide ParseOne, Scan;
    ScanSplit(r.stream, chunk);
    if !r.c.corrupt {
      ScanSplit(r.c.held, chunk);
      var q := Scan(r.c.held);
      if !q.bad {
        var z := Scan(q.rest + chunk);
        assert (r.taken + q.msgs) + z.msgs == r.taken + (q.msgs + z.msgs);
      }
    }
  }

  lemma TakeTracks(r: Run)
    requires Tracks(r)
    ensures Tracks(Do(r, TryTake))
  {
    hide ParseOne;
    if !r.c.corrupt {
      assert r.taken + [] == r.taken;
      if ParseOne(r.c.held).Frame? {
        FrameUses(r.c.held);
        var rest := r.c.held[ParseOne(r.c.held).used..];
        var m := ParseOne(r.c.held).m;
        assert r.taken + ([m] + Scan(rest).msgs) == (r.taken + [m]) + Scan(rest).msgs;
      }
    }
  }

  lemma {:induction false} RunTracks(r: Run, calls: seq<Call>)
    requires Tracks(r)
    ensures Tracks(DoAll(r, calls))
    decreases |calls|
  {
    if calls != [] {
      hide Tracks, Do;
      match calls[0] {
        case Append(chunk) => AppendTracks(r, chunk);
        case TryTake => TakeTracks(r);
      }
      RunTracks(Do(r, calls[0]), calls[1..]);
    }
  }

  /**
   Whatever the calls, in whatever order: the frames taken are the first frames of the
   stream; and whenever a take has come back empty they are all of them, the verdict is the
   stream's, and without corruption exactly the incomplete tail is held.
   */
  lemma ClientFollowsScan(calls: seq<Call>)
    ensures
      var r := DoAll(Start, calls);
      var q := Scan(r.stream);
      && r.taken <= q.msgs
      && (r.failed ==> r.taken == q.msgs && r.c.corrupt == q.bad && (!q.bad ==> r.c.held == q.rest))
  {
    hide ParseOne, DoAll;
    var r := DoAll(Start, calls);
    assert Tracks(Start) by { NothingParses(); }
    RunTracks(Start, calls);
  }

  /** The client computes the length as a signed 32-bit integer. */
  function SignedLength(s: seq<byte>): int
    requires |s| >= HEADER_LEN
  {
    var n := Length(s);
    if n < 0x8000_0000 then n else n - 0x1_0000_0000
  }

  lemma SignDoesNotMatter(s: seq<byte>)
    requires |s| >= HEADER_LEN
    ensures ID_LEN <= SignedLength(s) <= MAX_FRAME_LEN <==> LegalLength(Length(s))
    ensures LegalLength(Length(s)) ==> SignedLength(s) == Length(s)
    ensures -0x8000_0000 <= SignedLength(s) < 0x8000_0000
  {
  }

  /** On one stream, however cut for each: the server hands out what the client takes, and
      more only if the client has found it corrupt. */
  lemma ReceiversAgree(calls: seq<Call>, chunks: seq<seq<byte>>)
    requires DoAll(Start, calls).failed && DoAll(Start, calls).stream == Flatten(chunks)
    ensures
      var r, w := DoAll(Start, calls), ReceiveAll(NewServer, chunks);
      && r.taken <= w.msgs && r.c.corrupt == w.shut
      && (!w.shut ==> r.taken == w.msgs && r.c.held == w.held)
  {
    hide ParseOne, DoAll, ReceiveAll, Scan;
    ClientFollowsScan(calls);
    NothingParses();
    var s := Flatten(chunks);
    assert NewServer.held + s == s;
    ServerFollowsScan(NewServer, chunks);
    assert [] + Scan(s).msgs == Scan(s).msgs;
  }

  // ---------------------------------------------------------------- room needed by the client

  /** A drained parser holds less than one frame of the largest size. */
  lemma DrainedIsShort(held: seq<byte>)
    requires ParseOne(held) == More
    ensures |held| < HEADER_LEN + MAX_FRAME_LEN
  {
  }
}
