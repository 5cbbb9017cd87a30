/**
 A room's tick and what it broadcasts, run against the client that listens: deltas and
 tombstones keep the client's picture equal to the server's state.  The same runs give
 the ledger of bullets.
 */
module Replication {
  import opened Prelude
  import opened SimModel
  import opened SimFacts
  import S = Snapshots
  import I = InterpModel

  const TICK_MS: nat := 50

  datatype Battle = Battle(tick: nat, sim: Sim, ended: bool)

  /** Two players face each other. */
  function NewBattle(a: nat, b: nat): Battle {
    Battle(0, AddPlayer(AddPlayer(Empty, a, 30.0, 50.0), b, 70.0, 50.0), false)
  }

  // ---------------------------------------------------------------- snapshots

  function PlayerStateOf(s: Sim, id: nat): S.PlayerState
    requires id in s.players
  {
    var p := s.players[id];
    S.PlayerState(id, p.x, p.y, p.hp, p.inputSeq)
  }

  function BulletStateOf(s: Sim, id: nat): S.BulletState
    requires id in s.bullets
  {
    var b := s.bullets[id];
    S.BulletState(id, b.owner, b.x, b.y, b.vx, b.vy)
  }

  function PlayerStates(s: Sim, ids: seq<nat>): seq<S.PlayerState>
    requires forall id | id in ids :: id in s.players
  {
    seq(|ids|, i requires 0 <= i < |ids| => assert ids[i] in ids; PlayerStateOf(s, ids[i]))
  }

  function BulletStates(s: Sim, ids: seq<nat>): seq<S.BulletState>
    requires forall id | id in ids :: id in s.bullets
  {
    seq(|ids|, i requires 0 <= i < |ids| => assert ids[i] in ids; BulletStateOf(s, ids[i]))
  }

  function FullSnapshot(b: Battle, players: seq<nat>, bullets: seq<nat>): S.Snapshot
    requires Lists(players, b.sim.players.Keys) && Lists(bullets, b.sim.bullets.Keys)
  {
    S.Snapshot(b.tick, true, PlayerStates(b.sim, players), BulletStates(b.sim, bullets), [])
  }

  /** The orders in which one tick visits players and bullets and lists what it sends. */
  datatype Orders = Orders(players: seq<nat>, bullets: seq<nat>, changed: seq<nat>, live: seq<nat>)

  ghost predicate OrdersFit(b: Battle, o: Orders, root: Root) {
    && Lists(o.players, b.sim.players.Keys) && Lists(o.bullets, b.sim.bullets.Keys)
    && var (s, changed) := Step(b.sim, TICK_MS, o.players, o.bullets, root);
       Lists(o.changed, changed) && Lists(o.live, s.bullets.Keys)
       && (forall id | id in changed :: id in s.players)
  }

  /** The simulation after a tick, before the room takes the list of removed bullets. */
  function Stepped(b: Battle, o: Orders, root: Root): Sim
    requires Lists(o.players, b.sim.players.Keys) && Lists(o.bullets, b.sim.bullets.Keys)
  {
    Step(b.sim, TICK_MS, o.players, o.bullets, root).0
  }

  /** The delta of a tick, if there is anything to tell. */
  ghost function Delta(b: Battle, o: Orders, root: Root): Option<S.Snapshot>
    requires OrdersFit(b, o, root)
  {
    var s := Stepped(b, o, root);
    if o.changed != [] || o.live != [] || s.removed != [] then
      Some(S.Snapshot(b.tick + 1, false, PlayerStates(s, o.changed), BulletStates(s, o.live), s.removed))
    else None
  }

  ghost function Ticked(b: Battle, o: Orders, root: Root): Battle
    requires OrdersFit(b, o, root)
  {
    var s := TakeRemoved(Stepped(b, o, root)).0;
    Battle(b.tick + 1, s, Winner(s) != 0)
  }

  // ---------------------------------------------------------------- the client's picture

  ghost predicate SameBullet(c: I.Bullet, b: Bullet) {
    c.owner == b.owner && c.x == b.x && c.y == b.y && c.vx == b.vx && c.vy == b.vy
  }

  ghost predicate SamePlayer(track: seq<I.Keyframe>, p: Player) {
    track != [] && I.Last(track).x == p.x && I.Last(track).y == p.y && I.Last(track).hp == p.hp
  }

  /** The client holds exactly the server's players and exactly its live bullets. */
  ghost predicate Mirrors(c: I.Client, s: Sim) {
    && c.tracks.Keys == s.players.Keys
    && (forall id | id in s.players :: SamePlayer(c.tracks[id], s.players[id]))
    && c.bullets.Keys == s.bullets.Keys
    && (forall id | id in s.bullets :: SameBullet(c.bullets[id], s.bullets[id]))
  }

  lemma StatesDistinct(s: Sim, ids: seq<nat>)
    requires (forall id | id in ids :: id in s.players) && NoRepeat(ids)
    ensures I.DistinctIds(PlayerStates(s, ids))
    ensures forall id :: I.Mentions(PlayerStates(s, ids), id) <==> id in ids
  {
    var ps := PlayerStates(s, ids);
    forall id | id in ids ensures I.Mentions(ps, id) {
      var i :| 0 <= i < |ids| && ids[i] == id;
      assert ps[i].id == id;
    }
  }

  predicate Listed(bs: seq<S.BulletState>, id: nat) {
    exists i | 0 <= i < |bs| :: bs[i].id == id
  }

  lemma {:induction false} AddBulletsFacts(bullets: map<nat, I.Bullet>, bs: seq<S.BulletState>)
    ensures
      var r := I.AddBullets(bullets, bs);
      && (forall id :: id in r <==> id in bullets || Listed(bs, id))
      && (forall id | id in bullets && !Listed(bs, id) :: r[id] == bullets[id])
    decreases |bs|
  {
    if bs != [] {
      var rest := bs[1..];
      var b1 := bullets[bs[0].id := I.Bullet(bs[0].owner, bs[0].x, bs[0].y, bs[0].vx, bs[0].vy)];
      assert I.AddBullets(bullets, bs) == I.AddBullets(b1, rest);
      AddBulletsFacts(b1, rest);
      forall id ensures Listed(bs, id) <==> id == bs[0].id || Listed(rest, id) {
        ListedTail(bs, id);
      }
    }
  }

  lemma ListedTail(bs: seq<S.BulletState>, id: nat)
    requires bs != []
    ensures Listed(bs, id) <==> id == bs[0].id || Listed(bs[1..], id)
  {
    var rest := bs[1..];
    if Listed(bs, id) && id != bs[0].id {
      var i :| 0 <= i < |bs| && bs[i].id == id;
      assert rest[i - 1].id == id;
    }
    if Listed(rest, id) {
      var i :| 0 <= i < |rest| && rest[i].id == id;
      assert bs[i + 1].id == id;
    }
  }

  lemma {:induction false} AddBulletsValue(bullets: map<nat, I.Bullet>, bs: seq<S.BulletState>, k: nat)
    requires k < |bs| && (forall i, j | 0 <= i < j < |bs| :: bs[i].id != bs[j].id)
    ensures
      var r := I.AddBullets(bullets, bs);
      bs[k].id in r && r[bs[k].id] == I.Bullet(bs[k].owner, bs[k].x, bs[k].y, bs[k].vx, bs[k].vy)
    decreases |bs|
  {
    var b1 := bullets[bs[0].id := I.Bullet(bs[0].owner, bs[0].x, bs[0].y, bs[0].vx, bs[0].vy)];
    var rest := bs[1..];
    assert forall i | 0 <= i < |rest| :: rest[i] == bs[i + 1];
    assert I.AddBullets(bullets, bs) == I.AddBullets(b1, rest);
    AddBulletsFacts(b1, rest);
    if k > 0 {
      assert rest[k - 1] == bs[k];
      AddBulletsValue(b1, rest, k - 1);
    } else {
      assert !Listed(rest, bs[0].id);
    }
  }

  /** Bullets: everything live is listed, everything that died is named. */
  lemma BulletsFollow(bullets: map<nat, I.Bullet>, s: Sim, live: seq<nat>, removed: seq<nat>)
    requires Lists(live, s.bullets.Keys)
    requires forall id | id in bullets :: id in s.bullets || id in removed
    requires forall id | id in removed :: id !in s.bullets
    ensures
      var r := I.RemoveBullets(I.AddBullets(bullets, BulletStates(s, live)), removed);
      r.Keys == s.bullets.Keys && (forall id | id in s.bullets :: SameBullet(r[id], s.bullets[id]))
  {
    var bs := BulletStates(s, live);
    AddBulletsFacts(bullets, bs);
    forall id | id in s.bullets
      ensures id in I.AddBullets(bullets, bs) && SameBullet(I.AddBullets(bullets, bs)[id], s.bullets[id])
    {
      var k :| 0 <= k < |live| && live[k] == id;
      AddBulletsValue(bullets, bs, k);
    }
    forall i | 0 <= i < |bs| ensures bs[i].id in s.bullets {
      assert live[i] in live;
    }
  }

  /** Players: a client that knows everybody but the changed ones follows. */
  lemma PlayerFollows(c: I.Client, s: Sim, snap: S.Snapshot, changed: seq<nat>, id: nat)
    requires !I.Stale(c, snap) && (forall x | x in changed :: x in s.players) && NoRepeat(changed)
    requires snap.players == PlayerStates(s, changed) && id in s.players
    requires id !in changed ==> id in I.Base(c, snap).tracks && SamePlayer(I.Base(c, snap).tracks[id], s.players[id])
    ensures id in I.Push(c, snap).tracks && SamePlayer(I.Push(c, snap).tracks[id], s.players[id])
  {
    StatesDistinct(s, changed);
    I.PushTrack(c, snap, id);
    hide I.Push;
    if id in changed {
      var i :| 0 <= i < |changed| && changed[i] == id;
      assert snap.players[i].id == id;
    }
  }

  lemma PushKeys(c: I.Client, s: Sim, snap: S.Snapshot, changed: seq<nat>)
    requires !I.Stale(c, snap) && (forall x | x in changed :: x in s.players) && NoRepeat(changed)
    requires snap.players == PlayerStates(s, changed)
    requires forall id | id in I.Base(c, snap).tracks :: id in s.players
    ensures forall id | id in I.Push(c, snap).tracks :: id in s.players
  {
    hide I.Push, PlayerStates;
    StatesDistinct(s, changed);
    forall id | id in I.Push(c, snap).tracks ensures id in s.players {
      I.PushTrack(c, snap, id);
    }
  }

  lemma PushBullets(c: I.Client, snap: S.Snapshot)
    requires !I.Stale(c, snap)
    ensures I.Push(c, snap).bullets ==
      I.RemoveBullets(I.AddBullets(I.Base(c, snap).bullets, snap.bullets), snap.removed)
    ensures I.Push(c, snap).latest == snap.tick
  {
  }

  lemma ListsFacts(order: seq<nat>, keys: set<nat>)
    requires Lists(order, keys)
    ensures NoRepeat(order) && (forall x | x in order :: x in keys) && (forall x | x in keys :: x in order)
  {
  }

  /** A full snapshot, whatever the client held before, makes the client mirror the server. */
  lemma FullSnapshotMirrors(c: I.Client, b: Battle, players: seq<nat>, bullets: seq<nat>)
    requires Lists(players, b.sim.players.Keys) && Lists(bullets, b.sim.bullets.Keys)
    ensures
      var r := I.Push(c, FullSnapshot(b, players, bullets));
      Mirrors(r, b.sim) && r.latest == b.tick
  {
    hide I.Push, I.AddBullets, I.RemoveBullets, PlayerStates, BulletStates, Lists;
    var snap := FullSnapshot(b, players, bullets);
    var s := b.sim;
    ListsFacts(players, s.players.Keys);
    PushBullets(c, snap);
    BulletsFollow(map[], s, bullets, []);
    PushKeys(c, s, snap, players);
    forall id | id in s.players
      ensures id in I.Push(c, snap).tracks && SamePlayer(I.Push(c, snap).tracks[id], s.players[id])
    {
      PlayerFollows(c, s, snap, players, id);
    }
  }

  /** What the listening client does at a tick: it pushes the delta, if one was sent. */
  ghost function Listens(c: I.Client, b: Battle, o: Orders, root: Root): I.Client
    requires OrdersFit(b, o, root)
  {
    match Delta(b, o, root)
    case None => c
    case Some(snap) => I.Push(c, snap)
  }

  ghost predicate Synced(c: I.Client, b: Battle) {
    Mirrors(c, b.sim) && c.latest <= b.tick && IdsBelow(b.sim.bullets, b.sim.nextId)
  }

  lemma SilentTick(c: I.Client, b: Battle, o: Orders, root: Root)
    requires Synced(c, b) && OrdersFit(b, o, root) && Delta(b, o, root).None?
    ensures Mirrors(c, Stepped(b, o, root))
  {
    hide Step, Lists, IdsBelow;
    StepFacts(b.sim, TICK_MS, o.players, o.bullets, root);
    var s := Stepped(b, o, root);
    var changed := Step(b.sim, TICK_MS, o.players, o.bullets, root).1;
    ListsFacts(o.changed, changed);
    ListsFacts(o.live, s.bullets.Keys);
    forall id | id in s.players ensures SamePlayer(c.tracks[id], s.players[id]) {
      assert id !in Visible(b.sim.players, s.players);
    }
    assert s.bullets.Keys == {};
    assert b.sim.bullets.Keys == {} by {
      assert forall id :: id !in b.sim.bullets;
    }
  }

  lemma DeltaTick(c: I.Client, b: Battle, o: Orders, root: Root)
    requires Synced(c, b) && OrdersFit(b, o, root) && Delta(b, o, root).Some?
    ensures Mirrors(I.Push(c, Delta(b, o, root).value), Stepped(b, o, root))
    ensures I.Push(c, Delta(b, o, root).value).latest == b.tick + 1
  {
    hide Step, Lists, I.Push, I.AddBullets, I.RemoveBullets, PlayerStates, BulletStates;
    StepFacts(b.sim, TICK_MS, o.players, o.bullets, root);
    var s := Stepped(b, o, root);
    var changed := Step(b.sim, TICK_MS, o.players, o.bullets, root).1;
    var snap := Delta(b, o, root).value;
    ListsFacts(o.changed, changed);
    assert !I.Stale(c, snap);
    PushBullets(c, snap);
    BulletsFollow(c.bullets, s, o.live, s.removed);
    PushKeys(c, s, snap, o.changed);
    forall id | id in s.players
      ensures id in I.Push(c, snap).tracks && SamePlayer(I.Push(c, snap).tracks[id], s.players[id])
    {
      if id !in o.changed {
        assert id !in Visible(b.sim.players, s.players);
      }
      PlayerFollows(c, s, snap, o.changed, id);
    }
  }

  lemma TickSynced(c: I.Client, b: Battle, o: Orders, root: Root)
    requires Synced(c, b) && OrdersFit(b, o, root)
    ensures Synced(Listens(c, b, o, root), Ticked(b, o, root))
  {
    hide Step, Lists, Winner, Mirrors;
    StepFacts(b.sim, TICK_MS, o.players, o.bullets, root);
    var s := Stepped(b, o, root);
    if Delta(b, o, root).None? {
      SilentTick(c, b, o, root);
      MirrorsRemoved(c, s);
    } else {
      DeltaTick(c, b, o, root);
      hide I.Push;
      MirrorsRemoved(Listens(c, b, o, root), s);
    }
  }

  lemma MirrorsRemoved(c: I.Client, s: Sim)
    requires Mirrors(c, s)
    ensures Mirrors(c, TakeRemoved(s).0)
  {
  }

  // ---------------------------------------------------------------- runs

  datatype Event = GotInput(pid: nat, input: Input) | Tick(orders: Orders)

  /** Input is ignored once the battle has ended, and so are ticks. */
  ghost predicate Possible(b: Battle, e: Event, root: Root) {
    match e
    case GotInput(_, _) => true
    case Tick(o) => b.ended || OrdersFit(b, o, root)
  }

  ghost function Happen(b: Battle, e: Event, root: Root): Battle
    requires Possible(b, e, root)
  {
    if b.ended then b
    else match e
      case GotInput(pid, i) => b.(sim := ApplyInput(b.sim, pid, i))
      case Tick(o) => Ticked(b, o, root)
  }

  ghost function Hear(c: I.Client, b: Battle, e: Event, root: Root): I.Client
    requires Possible(b, e, root)
  {
    if b.ended || e.GotInput? then c else Listens(c, b, e.orders, root)
  }

  ghost predicate ValidRun(b: Battle, es: seq<Event>, root: Root)
    decreases |es|
  {
    es == [] || (Possible(b, es[0], root) && ValidRun(Happen(b, es[0], root), es[1..], root))
  }

  ghost function Play(b: Battle, es: seq<Event>, root: Root): Battle
    requires ValidRun(b, es, root)
    decreases |es|
  {
    if es == [] then b else Play(Happen(b, es[0], root), es[1..], root)
  }

  ghost function Follow(c: I.Client, b: Battle, es: seq<Event>, root: Root): I.Client
    requires ValidRun(b, es, root)
    decreases |es|
  {
    if es == [] then c else Follow(Hear(c, b, es[0], root), Happen(b, es[0], root), es[1..], root)
  }

  lemma EventSynced(c: I.Client, b: Battle, e: Event, root: Root)
    requires Synced(c, b) && Possible(b, e, root)
    ensures Synced(Hear(c, b, e, root), Happen(b, e, root))
  {
    if !b.ended && e.Tick? {
      hide Synced, Listens, Ticked, OrdersFit;
      TickSynced(c, b, e.orders, root);
    }
  }

  lemma {:induction false} RunSynced(c: I.Client, b: Battle, es: seq<Event>, root: Root)
    requires Synced(c, b) && ValidRun(b, es, root)
    ensures Synced(Follow(c, b, es, root), Play(b, es, root))
    decreases |es|
  {
    if es != [] {
      hide Synced, Hear, Happen, Possible;
      EventSynced(c, b, es[0], root);
      RunSynced(Hear(c, b, es[0], root), Happen(b, es[0], root), es[1..], root);
    }
  }

  /**
   Replication.  A client in any state that receives one full snapshot of a battle and then
   every delta broadcast after it holds, after every further event and tick, sent or
   silent, exactly the server's positions and health and exactly its live bullets.
   */
  lemma ClientMirrorsServer(c: I.Client, b: Battle, players: seq<nat>, bullets: seq<nat>, es: seq<Event>, root: Root)
    requires Lists(players, b.sim.players.Keys) && Lists(bullets, b.sim.bullets.Keys)
    requires IdsBelow(b.sim.bullets, b.sim.nextId) && ValidRun(b, es, root)
    ensures Mirrors(Follow(I.Push(c, FullSnapshot(b, players, bullets)), b, es, root), Play(b, es, root).sim)
  {
    hide I.Push, FullSnapshot, ValidRun, Follow, Play, Mirrors, Lists;
    FullSnapshotMirrors(c, b, players, bullets);
    RunSynced(I.Push(c, FullSnapshot(b, players, bullets)), b, es, root);
  }
}
