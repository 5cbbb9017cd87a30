/** The client's interpolator as it is programmed. */
module SnapshotInterpolator {
  import opened Prelude
  import opened Snapshots
  import opened InterpModel

  class SnapshotInterpolator {
    var tracks: map<nat, seq<Keyframe>>
    var bullets: map<nat, InterpModel.Bullet>
    var latest: nat

    function State(): Client
      reads this
    {
      Client(tracks, bullets, latest)
    }

    constructor ()
      ensures State() == Fresh
    {
      tracks, bullets, latest := map[], map[], 0;
    }

    method AppendKeyframe(id: nat, k: Keyframe)
      requires id in tracks
      modifies this`tracks
      ensures tracks == old(tracks)[id := Append(old(tracks)[id], k)]
    {
      var track := tracks[id] + [k];
      if |track| > MAX_KEYFRAMES {
        track := track[1..];
      }
      tracks := tracks[id := track];
    }

    method AddPlayers(ps: seq<PlayerState>, tick: nat)
      modifies this`tracks
      ensures tracks == InterpModel.AddPlayers(old(tracks), ps, tick)
    {
      hide Append;
      var i := 0;
      assert ps[0..] == ps;
      while i < |ps|
        invariant 0 <= i <= |ps|
        invariant InterpModel.AddPlayers(tracks, ps[i..], tick) == InterpModel.AddPlayers(old(tracks), ps, tick)
      {
        assert ps[i..][0] == ps[i] && ps[i..][1..] == ps[i + 1..];
        var p := ps[i];
        ghost var before := tracks;
        if p.id !in tracks {
          tracks := tracks[p.id := []];
        }
        AppendKeyframe(p.id, FrameOf(p, tick));
        assert tracks == before[p.id := Append(TrackOf(before, p.id), FrameOf(p, tick))];
        i := i + 1;
      }
    }

    /** Carries every track forward, whatever order the dictionary is walked in. */
    method CarryAll(tick: nat)
      modifies this`tracks
      ensures tracks == InterpModel.CarryAll(old(tracks), tick)
    {
      hide Append;
      var todo := tracks.Keys;
      while todo != {}
        invariant tracks.Keys == old(tracks).Keys && todo <= tracks.Keys
        invariant forall id | id in tracks ::
          tracks[id] == if id in todo then old(tracks)[id] else Carry(old(tracks)[id], tick)
        decreases |todo|
      {
        var id :| id in todo;
        todo := todo - {id};
        var track := tracks[id];
        if |track| == 0 || track[|track| - 1].tick == tick {
          continue;
        }
        var carry := track[|track| - 1].(tick := tick);
        AppendKeyframe(id, carry);
      }
    }

    method ReplaceBullets(bs: seq<BulletState>, gone: seq<nat>)
      modifies this`bullets
      ensures bullets == RemoveBullets(AddBullets(old(bullets), bs), gone)
    {
      var i := 0;
      assert bs[0..] == bs;
      while i < |bs|
        invariant 0 <= i <= |bs|
        invariant AddBullets(bullets, bs[i..]) == AddBullets(old(bullets), bs)
      {
        assert bs[i..][0] == bs[i] && bs[i..][1..] == bs[i + 1..];
        bullets := bullets[bs[i].id := InterpModel.Bullet(bs[i].owner, bs[i].x, bs[i].y, bs[i].vx, bs[i].vy)];
        i := i + 1;
      }
      ghost var added := bullets;
      i := 0;
      while i < |gone|
        invariant 0 <= i <= |gone|
        invariant bullets == RemoveBullets(added, gone[..i])
      {
        assert gone[..i + 1] == gone[..i] + [gone[i]];
        bullets := bullets - {gone[i]};
        i := i + 1;
      }
      assert gone[..i] == gone;
    }

    /** A full snapshot starts over, a late packet is dropped, anything else is merged in. */
    method Push(snap: Snapshot)
      modifies this
      ensures State() == InterpModel.Push(old(State()), snap)
    {
      hide InterpModel.AddPlayers, InterpModel.CarryAll, RemoveBullets, AddBullets;
      if snap.full {
        tracks, bullets, latest := map[], map[], 0;
      }
      if latest != 0 && snap.tick <= latest {
        return;
      }
      AddPlayers(snap.players, snap.tick);
      CarryAll(snap.tick);
      ReplaceBullets(snap.bullets, snap.removed);
      latest := snap.tick;
    }

    /** Binary search for the keyframes around the render tick. */
    method TrySample(id: nat, renderTick: real) returns (r: Option<Sampled>)
      ensures r.Some? <==> id in tracks && tracks[id] != []
      ensures r.Some? ==> IsSample(tracks[id], renderTick, r.value)
    {
      hide Between, Mixes;
      if id !in tracks || |tracks[id]| == 0 {
        return None;
      }
      var track := tracks[id];
      if renderTick <= track[0].tick as real {
        return Some(ToSampled(track[0]));
      }
      var last := track[|track| - 1];
      if renderTick >= last.tick as real {
        return Some(ToSampled(last));
      }
      var lo, hi := 0, |track| - 1;
      while lo < hi
        invariant 0 <= lo <= hi < |track|
        invariant track[hi].tick as real > renderTick
        invariant lo > 0 ==> track[lo - 1].tick as real <= renderTick
      {
        var mid := (lo + hi) / 2;
        if track[mid].tick as real > renderTick {
          hi := mid;
        } else {
          lo := mid + 1;
        }
      }
      var b, a := track[lo], track[lo - 1];
      assert Brackets(track, renderTick, lo);
      BetweenMixes(a, b, renderTick);
      r := Some(Between(a, b, renderTick));
    }
  }
}
