/** What the server sends about a battle. */
module Snapshots {
  datatype PlayerState = PlayerState(id: nat, x: real, y: real, hp: int, inputSeq: nat)

  datatype BulletState = BulletState(id: nat, owner: nat, x: real, y: real, vx: real, vy: real)

  datatype Snapshot = Snapshot(
    tick: nat, full: bool, players: seq<PlayerState>, bullets: seq<BulletState>, removed: seq<nat>)
}

/**
 The client's snapshot interpolator as a value: a bounded track of keyframes per player
 and the set of live bullets.
 */
module InterpModel {
  import opened Prelude
  import opened Snapshots

  const MAX_KEYFRAMES: nat := 64

  datatype Keyframe = Keyframe(tick: nat, x: real, y: real, hp: int, inputSeq: nat)

  datatype Sampled = Sampled(x: real, y: real, hp: int, inputSeq: nat)

  datatype Bullet = Bullet(owner: nat, x: real, y: real, vx: real, vy: real)

  datatype Client = Client(tracks: map<nat, seq<Keyframe>>, bullets: map<nat, Bullet>, latest: nat)

  const Fresh: Client := Client(map[], map[], 0)

  function Append(track: seq<Keyframe>, k: Keyframe): (r: seq<Keyframe>)
    ensures r != [] && r[|r| - 1] == k
    ensures |track| <= MAX_KEYFRAMES ==> |r| <= MAX_KEYFRAMES
  {
    var t := track + [k];
    if |t| > MAX_KEYFRAMES then t[1..] else t
  }

  function Last(track: seq<Keyframe>): Keyframe
    requires track != []
  {
    track[|track| - 1]
  }

  function FrameOf(p: PlayerState, tick: nat): Keyframe {
    Keyframe(tick, p.x, p.y, p.hp, p.inputSeq)
  }

  function TrackOf(tracks: map<nat, seq<Keyframe>>, id: nat): seq<Keyframe> {
    if id in tracks then tracks[id] else []
  }

  /** Players in the snapshot get a new keyframe. */
  function AddPlayers(tracks: map<nat, seq<Keyframe>>, ps: seq<PlayerState>, tick: nat): map<nat, seq<Keyframe>>
    decreases |ps|
  {
    if ps == [] then tracks
    else AddPlayers(tracks[ps[0].id := Append(TrackOf(tracks, ps[0].id), FrameOf(ps[0], tick))], ps[1..], tick)
  }

  /** A player not in the snapshot has not changed: the last keyframe is carried forward. */
  function Carry(track: seq<Keyframe>, tick: nat): seq<Keyframe> {
    if track == [] || Last(track).tick == tick then track else Append(track, Last(track).(tick := tick))
  }

  function CarryAll(tracks: map<nat, seq<Keyframe>>, tick: nat): map<nat, seq<Keyframe>> {
    map id | id in tracks :: Carry(tracks[id], tick)
  }

  function AddBullets(bullets: map<nat, Bullet>, bs: seq<BulletState>): map<nat, Bullet>
    decreases |bs|
  {
    if bs == [] then bullets
    else AddBullets(bullets[bs[0].id := Bullet(bs[0].owner, bs[0].x, bs[0].y, bs[0].vx, bs[0].vy)], bs[1..])
  }

  function RemoveBullets(bullets: map<nat, Bullet>, ids: seq<nat>): map<nat, Bullet> {
    bullets - (set id | id in ids)
  }

  function Base(c: Client, snap: Snapshot): Client {
    if snap.full then Fresh else c
  }

  /** A late packet is dropped. */
  predicate Stale(c: Client, snap: Snapshot) {
    Base(c, snap).latest != 0 && snap.tick <= Base(c, snap).latest
  }

  function Push(c: Client, snap: Snapshot): Client {
    var c0 := Base(c, snap);
    if Stale(c, snap) then c0
    else
      Client(CarryAll(AddPlayers(c0.tracks, snap.players, snap.tick), snap.tick),
             RemoveBullets(AddBullets(c0.bullets, snap.bullets), snap.removed),
             snap.tick)
  }

  // ---------------------------------------------------------------- sampling

  function ToSampled(k: Keyframe): Sampled {
    Sampled(k.x, k.y, k.hp, k.inputSeq)
  }

  function Between(a: Keyframe, b: Keyframe, renderTick: real): Sampled
    requires a.tick < b.tick
  {
    var t := (renderTick - a.tick as real) / (b.tick - a.tick) as real;
    Sampled(a.x + (b.x - a.x) * t, a.y + (b.y - a.y) * t, a.hp, a.inputSeq)
  }

  ghost predicate Increasing(track: seq<Keyframe>) {
    forall i, j | 0 <= i < j < |track| :: track[i].tick < track[j].tick
  }

  /** `k` is the first keyframe after the render tick. */
  ghost predicate Brackets(track: seq<Keyframe>, renderTick: real, k: nat) {
    1 <= k < |track| && track[k - 1].tick as real <= renderTick < track[k].tick as real
  }

  /** A sample that is a keyframe's state. */
  ghost predicate Shows(s: Sampled, k: Keyframe) {
    s.x == k.x && s.y == k.y && s.hp == k.hp && s.inputSeq == k.inputSeq
  }

  /** `v` lies on the straight line from `va` at time `0` to `vb` at time `d`, at time `n`. */
  ghost predicate OnLine(va: real, vb: real, n: real, d: real, v: real) {
    (v - va) * d == (vb - va) * n
  }

  /** A sample between two keyframes: the position has covered the same share of the way as the
      render tick of the time; health and input number are those already confirmed. */
  ghost predicate Mixes(a: Keyframe, b: Keyframe, renderTick: real, s: Sampled) {
    && OnLine(a.x, b.x, renderTick - a.tick as real, b.tick as real - a.tick as real, s.x)
    && OnLine(a.y, b.y, renderTick - a.tick as real, b.tick as real - a.tick as real, s.y)
    && s.hp == a.hp && s.inputSeq == a.inputSeq
  }

  /** What a sample must be: the end keyframe outside the window, otherwise the mixture of the
      two keyframes around the render tick. */
  ghost predicate IsSample(track: seq<Keyframe>, renderTick: real, s: Sampled)
    requires track != []
  {
    if renderTick <= track[0].tick as real then Shows(s, track[0])
    else if renderTick >= track[|track| - 1].tick as real then Shows(s, track[|track| - 1])
    else exists k: nat :: Brackets(track, renderTick, k) && Mixes(track[k - 1], track[k], renderTick, s)
  }

  lemma BetweenMixes(a: Keyframe, b: Keyframe, renderTick: real)
    requires a.tick < b.tick
    ensures Mixes(a, b, renderTick, Between(a, b, renderTick))
  {
    var n, d := renderTick - a.tick as real, (b.tick - a.tick) as real;
    assert d == b.tick as real - a.tick as real && d > 0.0;
    ShareOnLine(a.x, b.x, n, d);
    ShareOnLine(a.y, b.y, n, d);
  }

  lemma ShareOnLine(va: real, vb: real, n: real, d: real)
    requires d > 0.0
    ensures OnLine(va, vb, n, d, va + (vb - va) * (n / d))
  {
    var t := n / d;
    assert t * d == n;
    assert ((vb - va) * t) * d == (vb - va) * (t * d);
  }

  lemma BracketUnique(track: seq<Keyframe>, renderTick: real, j: nat, k: nat)
    requires Increasing(track) && Brackets(track, renderTick, j) && Brackets(track, renderTick, k)
    ensures j == k
  {
    assert forall a, b | 0 <= a <= b < |track| :: track[a].tick <= track[b].tick;
  }

  ghost predicate Within(v: real, a: real, b: real) {
    (a <= v <= b) || (b <= v <= a)
  }

  lemma MixWithin(a: real, b: real, t: real)
    requires 0.0 <= t <= 1.0
    ensures Within(a + (b - a) * t, a, b)
  {
    var d := if a <= b then b - a else a - b;
    NonNegativeProduct(d, t);
    NonNegativeProduct(d, 1.0 - t);
    assert d * (1.0 - t) == d - d * t;
    assert (b - a) * t == if a <= b then d * t else -(d * t);
  }

  lemma OnLineIs(va: real, vb: real, n: real, d: real, v: real)
    requires d > 0.0 && OnLine(va, vb, n, d, v)
    ensures v == va + (vb - va) * (n / d)
  {
    ShareOnLine(va, vb, n, d);
    SameByProduct(v - va, (vb - va) * (n / d), d);
  }

  /** Interpolation never leaves the space between the two keyframes, and at either of them it
      is at that keyframe's place. */
  lemma MixStaysBetween(a: Keyframe, b: Keyframe, renderTick: real, s: Sampled)
    requires a.tick < b.tick && a.tick as real <= renderTick <= b.tick as real && Mixes(a, b, renderTick, s)
    ensures Within(s.x, a.x, b.x) && Within(s.y, a.y, b.y)
    ensures renderTick == a.tick as real ==> Shows(s, a)
    ensures renderTick == b.tick as real ==> s.x == b.x && s.y == b.y
  {
    var n, d := renderTick - a.tick as real, b.tick as real - a.tick as real;
    OnLineIs(a.x, b.x, n, d, s.x);
    OnLineIs(a.y, b.y, n, d, s.y);
    hide OnLine;
    FractionBounds(n, d);
    MixWithin(a.x, b.x, n / d);
    MixWithin(a.y, b.y, n / d);
  }

  lemma FractionBounds(n: real, d: real)
    requires d > 0.0 && 0.0 <= n <= d
    ensures 0.0 <= n / d <= 1.0
    ensures n == 0.0 ==> n / d == 0.0
    ensures n == d ==> n / d == 1.0
  {
  }

  /** Sampling at the tick of a retained keyframe gives exactly that keyframe's state. */
  lemma SampleAtKeyframe(track: seq<Keyframe>, i: nat, s: Sampled)
    requires Increasing(track) && i < |track| && IsSample(track, track[i].tick as real, s)
    ensures Shows(s, track[i])
  {
    hide Mixes, Shows;
    var r := track[i].tick as real;
    if r <= track[0].tick as real {
      assert i == 0;
    } else if r >= track[|track| - 1].tick as real {
      assert i == |track| - 1;
    } else {
      var k: nat :| Brackets(track, r, k) && Mixes(track[k - 1], track[k], r, s);
      assert i < |track| - 1;
      assert Brackets(track, r, i + 1);
      BracketUnique(track, r, k, i + 1);
      MixStaysBetween(track[i], track[i + 1], r, s);
    }
  }

  // ---------------------------------------------------------------- tracks

  ghost predicate TrackOk(track: seq<Keyframe>, latest: nat) {
    && 1 <= |track| <= MAX_KEYFRAMES && Increasing(track) && Last(track).tick == latest
  }

  ghost predicate TracksOk(c: Client) {
    forall id | id in c.tracks :: TrackOk(c.tracks[id], c.latest)
  }

  predicate DistinctIds(ps: seq<PlayerState>) {
    forall i, j | 0 <= i < j < |ps| :: ps[i].id != ps[j].id
  }

  predicate Mentions(ps: seq<PlayerState>, id: nat) {
    exists i | 0 <= i < |ps| :: ps[i].id == id
  }

  lemma AppendOk(track: seq<Keyframe>, k: Keyframe)
    requires |track| <= MAX_KEYFRAMES && Increasing(track) && (track != [] ==> Last(track).tick < k.tick)
    ensures TrackOk(Append(track, k), k.tick)
  {
    var t := track + [k];
    forall i, j | 0 <= i < j < |t| ensures t[i].tick < t[j].tick {
      if j == |track| && i < |track| - 1 {
        assert track[i].tick < track[|track| - 1].tick;
      }
    }
    assert Increasing(t);
  }

  /** Tracks after the players of a snapshot have been added: a mentioned player has the new
      keyframe appended once, the others are untouched. */
  lemma {:induction false} AddPlayersFacts(tracks: map<nat, seq<Keyframe>>, ps: seq<PlayerState>, tick: nat)
    requires DistinctIds(ps)
    ensures
      var r := AddPlayers(tracks, ps, tick);
      && (forall id :: id in r <==> id in tracks || Mentions(ps, id))
      && (forall i | 0 <= i < |ps| :: r[ps[i].id] == Append(TrackOf(tracks, ps[i].id), FrameOf(ps[i], tick)))
      && (forall id | id in tracks && !Mentions(ps, id) :: r[id] == tracks[id])
    decreases |ps|
  {
    if ps != [] {
      hide Append, Mentions, DistinctIds;
      var p, rest := ps[0], ps[1..];
      var t1 := tracks[p.id := Append(TrackOf(tracks, p.id), FrameOf(p, tick))];
      MentionsTail(ps);
      AddPlayersFacts(t1, rest, tick);
      var r := AddPlayers(tracks, ps, tick);
      forall i | 0 <= i < |ps|
        ensures ps[i].id in r && r[ps[i].id] == Append(TrackOf(tracks, ps[i].id), FrameOf(ps[i], tick))
      {
        if i > 0 {
          assert rest[i - 1] == ps[i];
        }
      }
    }
  }

  lemma MentionsTail(ps: seq<PlayerState>)
    requires ps != [] && DistinctIds(ps)
    ensures DistinctIds(ps[1..]) && !Mentions(ps[1..], ps[0].id)
    ensures forall id :: Mentions(ps, id) <==> id == ps[0].id || Mentions(ps[1..], id)
    ensures forall i | 0 < i < |ps| :: ps[i].id != ps[0].id
  {
    var rest := ps[1..];
    assert forall i | 0 <= i < |rest| :: rest[i] == ps[i + 1];
    forall id | Mentions(rest, id) ensures Mentions(ps, id) {
      var i :| 0 <= i < |rest| && rest[i].id == id;
      assert ps[i + 1].id == id;
    }
  }

  /** What a push does to one player, when the packet is not stale: the track ends in the
      new state, or in the old one carried forward. */
  lemma PushTrack(c: Client, snap: Snapshot, id: nat)
    requires DistinctIds(snap.players) && !Stale(c, snap)
    ensures
      var c0, r := Base(c, snap), Push(c, snap);
      && (id in r.tracks <==> id in c0.tracks || Mentions(snap.players, id))
      && (forall i | 0 <= i < |snap.players| && snap.players[i].id == id ::
            r.tracks[id] == Append(TrackOf(c0.tracks, id), FrameOf(snap.players[i], snap.tick)))
      && (id in c0.tracks && !Mentions(snap.players, id) ==> r.tracks[id] == Carry(c0.tracks[id], snap.tick))
  {
    hide Append, AddPlayers;
    AddPlayersFacts(Base(c, snap).tracks, snap.players, snap.tick);
  }

  /** A delta numbered 0 that mentions a player already known at tick 0.  (The server counts
      its deltas from 1.) */
  predicate RepeatsTickZero(c: Client, snap: Snapshot) {
    && !snap.full && snap.tick == 0 && c.latest == 0
    && exists i | 0 <= i < |snap.players| :: snap.players[i].id in c.tracks
  }

  /** A push keeps every track strictly increasing, within 64 keyframes, and ending at the
      latest tick, except exactly when it repeats tick 0. */
  lemma PushTracksOkIff(c: Client, snap: Snapshot)
    requires TracksOk(c) && DistinctIds(snap.players)
    ensures TracksOk(Push(c, snap)) <==> !RepeatsTickZero(c, snap)
  {
    hide Append, AddPlayers, CarryAll, TrackOk;
    if RepeatsTickZero(c, snap) {
      RepeatBreaks(c, snap);
    } else if !Stale(c, snap) {
      forall id | id in Push(c, snap).tracks ensures TrackOk(Push(c, snap).tracks[id], snap.tick) {
        PushTrackOk(c, snap, id);
      }
    }
  }

  lemma {:induction false} IncreasingLength(track: seq<Keyframe>)
    requires track != [] && Increasing(track)
    ensures |track| - 1 <= Last(track).tick
    decreases |track|
  {
    if |track| > 1 {
      IncreasingLength(track[..|track| - 1]);
    }
  }

  lemma RepeatBreaks(c: Client, snap: Snapshot)
    requires TracksOk(c) && DistinctIds(snap.players) && RepeatsTickZero(c, snap)
    ensures !TracksOk(Push(c, snap))
  {
    hide AddPlayers, CarryAll;
    var i :| 0 <= i < |snap.players| && snap.players[i].id in c.tracks;
    var id := snap.players[i].id;
    PushTrack(c, snap, id);
    var prior := c.tracks[id];
    assert TrackOk(prior, 0);
    IncreasingLength(prior);
    var track := Push(c, snap).tracks[id];
    assert track == prior + [FrameOf(snap.players[i], 0)];
    assert track[0].tick == track[1].tick;
    assert !TrackOk(track, 0);
  }

  lemma PushTrackOk(c: Client, snap: Snapshot, id: nat)
    requires TracksOk(c) && DistinctIds(snap.players) && !Stale(c, snap) && id in Push(c, snap).tracks
    requires !RepeatsTickZero(c, snap)
    ensures TrackOk(Push(c, snap).tracks[id], snap.tick)
  {
    hide Append, AddPlayers, CarryAll, Push;
    PushTrack(c, snap, id);
    var c0 := Base(c, snap);
    var track := TrackOf(c0.tracks, id);
    BaseTrack(c, snap, id);
    if Mentions(snap.players, id) {
      var i :| 0 <= i < |snap.players| && snap.players[i].id == id;
      AppendOk(track, FrameOf(snap.players[i], snap.tick));
    } else if Last(track).tick != snap.tick {
      AppendOk(track, Last(track).(tick := snap.tick));
    }
  }

  lemma BaseTrack(c: Client, snap: Snapshot, id: nat)
    requires TracksOk(c) && !Stale(c, snap)
    ensures
      var track := TrackOf(Base(c, snap).tracks, id);
      && |track| <= MAX_KEYFRAMES && Increasing(track)
      && (id in Base(c, snap).tracks ==> track != [])
      && (track != [] ==> Last(track).tick == Base(c, snap).latest)
      && (track != [] ==> !snap.full && (Last(track).tick < snap.tick || c.latest == 0))
  {
  }

  // ---------------------------------------------------------------- history

  /** A client with what it showed after each push since the last full snapshot: the state
      held for a player at a tick. */
  datatype Traced = Traced(c: Client, held: map<(nat, nat), Sampled>)

  function Held(c: Client): map<(nat, nat), Sampled> {
    map id | id in c.tracks && c.tracks[id] != [] :: (id, c.latest) := ToSampled(Last(c.tracks[id]))
  }

  function TracedPush(t: Traced, snap: Snapshot): Traced {
    if Stale(t.c, snap) then t
    else
      var c := Push(t.c, snap);
      Traced(c, (if snap.full then map[] else t.held) + Held(c))
  }

  /** Every retained keyframe is the state held after the push of its tick. */
  ghost predicate Faithful(t: Traced) {
    && TracksOk(t.c)
    && (forall id, i | id in t.c.tracks && 0 <= i < |t.c.tracks[id]| ::
          (id, t.c.tracks[id][i].tick) in t.held && t.held[(id, t.c.tracks[id][i].tick)] ==
            ToSampled(t.c.tracks[id][i]))
  }

  /** All but the newest keyframe of a track were there before. */
  lemma OlderFrames(c: Client, snap: Snapshot, id: nat, i: nat)
    requires TracksOk(c) && DistinctIds(snap.players) && !Stale(c, snap) && !RepeatsTickZero(c, snap)
    requires id in Push(c, snap).tracks && i < |Push(c, snap).tracks[id]| - 1
    ensures !snap.full && id in c.tracks && Push(c, snap).tracks[id][i] in c.tracks[id]
    ensures Push(c, snap).tracks[id][i].tick < snap.tick
  {
    hide AddPlayers, CarryAll, Push;
    PushTrack(c, snap, id);
    PushTrackOk(c, snap, id);
    BaseTrack(c, snap, id);
  }

  lemma PushFaithful(t: Traced, snap: Snapshot)
    requires Faithful(t) && DistinctIds(snap.players) && !RepeatsTickZero(t.c, snap)
    ensures Faithful(TracedPush(t, snap))
  {
    hide Push, TracksOk;
    if !Stale(t.c, snap) {
      PushTracksOkIff(t.c, snap);
      PushLatest(t.c, snap);
      var r := TracedPush(t, snap);
      forall id, i | id in r.c.tracks && 0 <= i < |r.c.tracks[id]|
        ensures (id, r.c.tracks[id][i].tick) in r.held
        ensures r.held[(id, r.c.tracks[id][i].tick)] == ToSampled(r.c.tracks[id][i])
      {
        PushTrackOk(t.c, snap, id);
        if i < |r.c.tracks[id]| - 1 {
          OlderFrames(t.c, snap, id, i);
          assert (id, r.c.tracks[id][i].tick) !in Held(r.c);
        } else {
          assert (id, r.c.latest) in Held(r.c);
        }
      }
    }
  }

  lemma PushLatest(c: Client, snap: Snapshot)
    requires !Stale(c, snap)
    ensures Push(c, snap).latest == snap.tick
  {
    hide AddPlayers, CarryAll;
  }

  function PushAll(t: Traced, snaps: seq<Snapshot>): Traced
    decreases |snaps|
  {
    if snaps == [] then t else PushAll(TracedPush(t, snaps[0]), snaps[1..])
  }

  /** Snapshots as the server makes them: nobody listed twice, deltas counted from 1. */
  predicate Proper(snaps: seq<Snapshot>) {
    forall i | 0 <= i < |snaps| :: DistinctIds(snaps[i].players) && (snaps[i].full || snaps[i].tick >= 1)
  }

  lemma {:induction false} AllFaithful(t: Traced, snaps: seq<Snapshot>)
    requires Faithful(t) && Proper(snaps)
    ensures Faithful(PushAll(t, snaps))
    decreases |snaps|
  {
    if snaps != [] {
      hide Faithful, TracedPush;
      PushFaithful(t, snaps[0]);
      AllFaithful(TracedPush(t, snaps[0]), snaps[1..]);
    }
  }

  /**
   After any sequence of pushes, late ones included, sampling a player at the tick of any
   retained keyframe gives exactly the state the client held after the push of that tick.
   */
  lemma SamplingRecallsHistory(snaps: seq<Snapshot>, id: nat, i: nat, s: Sampled)
    requires Proper(snaps)
    requires
      var t := PushAll(Traced(Fresh, map[]), snaps);
      id in t.c.tracks && i < |t.c.tracks[id]| && IsSample(t.c.tracks[id], t.c.tracks[id][i].tick as real, s)
    ensures
      var t := PushAll(Traced(Fresh, map[]), snaps);
      var tick := t.c.tracks[id][i].tick;
      (id, tick) in t.held && s == t.held[(id, tick)]
  {
    var t := PushAll(Traced(Fresh, map[]), snaps);
    assert Faithful(Traced(Fresh, map[]));
    hide PushAll, IsSample;
    AllFaithful(Traced(Fresh, map[]), snaps);
    assert TrackOk(t.c.tracks[id], t.c.latest);
    SampleAtKeyframe(t.c.tracks[id], i, s);
  }
}
