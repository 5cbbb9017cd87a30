/**
 One step of a battle between two players, in terms that no iteration order enters: who
 fires what, which bullets live on, and what becomes of each player.
 */
module Duel {
  import opened Prelude
  import opened SimModel
  import opened SimFacts
  import opened Collision
  import opened Movement

  function Other(a: nat, b: nat, p: nat): nat {
    if p == a then b else a
  }

  ghost predicate TwoPlayers(players: map<nat, Player>, a: nat, b: nat) {
    a != b && players.Keys == {a, b}
  }

  // ---------------------------------------------------------------- firing

  /** What `p` fires at `v`: towards a live opponent, otherwise the way `p` last moved. */
  function ShotAt(players: map<nat, Player>, p: nat, v: nat, root: Root): Bullet
    requires p in players && v in players
  {
    var (me, it) := (players[p], players[v]);
    NewBullet(me, p, if it.Alive() then Toward(it.x - me.x, it.y - me.y, root) else (me.fx, me.fy))
  }

  lemma AimInDuel(players: map<nat, Player>, order: seq<nat>, a: nat, b: nat, p: nat, root: Root)
    requires TwoPlayers(players, a, b) && Lists(order, players.Keys) && p in players
    ensures Other(a, b, p) in players
    ensures NewBullet(players[p], p, Aim(players, order, p, root)) == ShotAt(players, p, Other(a, b, p), root)
  {
    hide NewBullet, Toward, Nearest, Distance;
    var v := Other(a, b, p);
    assert v in players.Keys;
    TargetIsNearestEnemy(players, order, p, root);
    assert forall o | Enemy(players, p, o) :: o == v by {
      assert forall o | o in players.Keys :: o == a || o == b;
    }
    assert Enemy(players, p, v) <==> players[v].Alive();
  }

  /** Firing goes by what the players were like before anybody fired. */
  ghost predicate Volley(s: Sim, r: Sim, a: nat, b: nat, todo: seq<nat>, root: Root) {
    && r.players.Keys == s.players.Keys
    && (forall id | id in r.bullets && id !in s.bullets :: ShotBy(r.bullets[id], s.players, a, b, todo, root))
    && OwnersDiffer(s, r)
    && (forall p | p in todo && p in s.players && Fires(s.players[p]) :: Fired(s, r, p))
    && (forall p | p in s.players :: r.players[p] == Shooter(s.players[p], p in todo))
  }

  ghost predicate ShotBy(bl: Bullet, players: map<nat, Player>, a: nat, b: nat, todo: seq<nat>, root: Root) {
    && bl.owner in players && bl.owner in todo && Fires(players[bl.owner]) && Other(a, b, bl.owner) in players
    && bl == ShotAt(players, bl.owner, Other(a, b, bl.owner), root)
  }

  ghost predicate OwnersDiffer(s: Sim, r: Sim) {
    forall i, j | i in r.bullets && j in r.bullets && i !in s.bullets && j !in s.bullets && i != j ::
      r.bullets[i].owner != r.bullets[j].owner
  }

  /** A player after its turn to fire, if it has had one. */
  function Shooter(p: Player, turn: bool): Player {
    if turn && Fires(p) then p.(cd := ATTACK_CD) else p
  }

  /** The step from `s` to `r` fired a bullet of `p`. */
  ghost predicate Fired(s: Sim, r: Sim, p: nat) {
    exists id :: id in r.bullets && id !in s.bullets && r.bullets[id].owner == p
  }

  /** A shot goes by place, direction and life, not by cooldowns. */
  lemma ShotIgnoresCooldown(players: map<nat, Player>, p: nat, cd: real, q: nat, v: nat, root: Root)
    requires p in players && q in players && v in players
    ensures ShotAt(players[p := players[p].(cd := cd)], q, v, root) == ShotAt(players, q, v, root)
  {
    hide Toward;
  }

  lemma {:induction false} FireAllVolley(s: Sim, order: seq<nat>, todo: seq<nat>, a: nat, b: nat, root: Root)
    requires TwoPlayers(s.players, a, b) && Lists(order, s.players.Keys)
    requires NoRepeat(todo) && (forall o | o in todo :: o in s.players) && IdsBelow(s.bullets, s.nextId)
    ensures Volley(s, FireAll(s, order, todo, root), a, b, todo, root)
    decreases |todo|
  {
    if todo != [] {
      hide ShotAt, Aim, NewBullet, NoRepeat, Fires;
      Tail(todo);
      var p := todo[0];
      var s1 := FireOne(s, order, p, root);
      AimInDuel(s.players, order, a, b, p, root);
      FireAllVolley(s1, order, todo[1..], a, b, root);
      FireAllFacts(s1, order, todo[1..], root);
      var r := FireAll(s1, order, todo[1..], root);
      assert r == FireAll(s, order, todo, root);
      NewBulletOwner(s.players[p], p, Aim(s.players, order, p, root));
      hide FireAll, Lists;
      if Fires(s.players[p]) {
        ShotThenRest(s, s1, r, a, b, todo, root);
      } else {
        RestOnly(s, r, a, b, todo, root);
      }
    }
  }

  lemma NewBulletOwner(p: Player, id: nat, d: (real, real))
    ensures NewBullet(p, id, d).owner == id
  {
  }

  lemma RestOnly(s: Sim, r: Sim, a: nat, b: nat, todo: seq<nat>, root: Root)
    requires todo != [] && todo[0] in s.players && !Fires(s.players[todo[0]]) && Volley(s, r, a, b, todo[1..], root)
    ensures Volley(s, r, a, b, todo, root)
  {
    hide ShotAt, Fires;
    assert forall x | x in todo :: x == todo[0] || x in todo[1..];
  }

  lemma ShotThenRest(s: Sim, s1: Sim, r: Sim, a: nat, b: nat, todo: seq<nat>, root: Root)
    requires TwoPlayers(s.players, a, b) && todo != [] && todo[0] !in todo[1..] && IdsBelow(s.bullets, s.nextId)
    requires todo[0] in s.players && Fires(s.players[todo[0]]) && Other(a, b, todo[0]) in s.players
    requires
      var shot := ShotAt(s.players, todo[0], Other(a, b, todo[0]), root);
      && shot.owner == todo[0]
      && s1.bullets == s.bullets[s.nextId := shot]
      && s1.players == s.players[todo[0] := s.players[todo[0]].(cd := ATTACK_CD)]
    requires Volley(s1, r, a, b, todo[1..], root)
    requires forall id | id in s1.bullets :: id in r.bullets && r.bullets[id] == s1.bullets[id]
    ensures Volley(s, r, a, b, todo, root)
  {
    hide ShotAt, Fires, ShotBy, OwnersDiffer, Shooter;
    var p := todo[0];
    assert forall x | x in todo :: x == p || x in todo[1..];
    assert s.nextId !in s.bullets && s.nextId in r.bullets && r.bullets[s.nextId] == s1.bullets[s.nextId];
    forall id | id in r.bullets && id !in s.bullets ensures ShotBy(r.bullets[id], s.players, a, b, todo, root) {
      if id == s.nextId {
        FirstShot(s.players, a, b, todo, root);
      } else {
        LaterShot(r.bullets[id], s.players, s1.players, a, b, todo, root);
      }
    }
    assert OwnersDiffer(s, r) by {
      DifferStill(s, s1, r, a, b, todo, root);
    }
    forall q | q in todo && q in s.players && Fires(s.players[q]) ensures Fired(s, r, q) {
      FiredStill(s, s1, r, p, q, todo);
    }
    forall q | q in s.players ensures r.players[q] == Shooter(s.players[q], q in todo) {
      ShooterStill(s.players[q], q == p, q in todo[1..]);
    }
  }

  lemma FirstShot(players: map<nat, Player>, a: nat, b: nat, todo: seq<nat>, root: Root)
    requires todo != [] && todo[0] in players && Fires(players[todo[0]]) && Other(a, b, todo[0]) in players
    requires ShotAt(players, todo[0], Other(a, b, todo[0]), root).owner == todo[0]
    ensures ShotBy(ShotAt(players, todo[0], Other(a, b, todo[0]), root), players, a, b, todo, root)
  {
    hide ShotAt, Fires;
  }

  lemma LaterShot(bl: Bullet, players: map<nat, Player>, players1: map<nat, Player>, a: nat, b: nat, todo: seq<nat>,
                  root: Root)
    requires todo != [] && todo[0] !in todo[1..] && todo[0] in players
    requires players1 == players[todo[0] := players[todo[0]].(cd := ATTACK_CD)]
    requires ShotBy(bl, players1, a, b, todo[1..], root)
    ensures ShotBy(bl, players, a, b, todo, root)
  {
    hide ShotAt, Fires;
    ShotIgnoresCooldown(players, todo[0], ATTACK_CD, bl.owner, Other(a, b, bl.owner), root);
  }

  lemma DifferStill(s: Sim, s1: Sim, r: Sim, a: nat, b: nat, todo: seq<nat>, root: Root)
    requires todo != [] && todo[0] !in todo[1..] && s.nextId !in s.bullets && OwnersDiffer(s1, r)
    requires s1.bullets.Keys == s.bullets.Keys + {s.nextId}
    requires s.nextId in r.bullets && r.bullets[s.nextId].owner == todo[0]
    requires forall id | id in r.bullets && id !in s1.bullets ::
      ShotBy(r.bullets[id], s1.players, a, b, todo[1..], root)
    ensures OwnersDiffer(s, r)
  {
    hide ShotAt, Fires;
    assert forall id | id in r.bullets && id !in s.bullets && id != s.nextId :: id !in s1.bullets.Keys;
  }

  lemma FiredStill(s: Sim, s1: Sim, r: Sim, p: nat, q: nat, todo: seq<nat>)
    requires s1.bullets.Keys == s.bullets.Keys + {s.nextId} && s.nextId !in s.bullets
    requires s.nextId in r.bullets && r.bullets[s.nextId].owner == p
    requires q == p || Fired(s1, r, q)
    ensures Fired(s, r, q)
  {
    if q != p {
      var id :| id in r.bullets && id !in s1.bullets && r.bullets[id].owner == q;
      assert id !in s.bullets.Keys;
    }
  }

  lemma ShooterStill(p: Player, first: bool, later: bool)
    requires first ==> Fires(p) && !later
    ensures Shooter(if first then p.(cd := ATTACK_CD) else p, later) == Shooter(p, first || later)
  {
  }

  // ---------------------------------------------------------------- flight

  /** A bullet of `b.owner` misses the opponent standing as `v` and is not spent. */
  predicate FliesOn(b: Bullet, v: Player, dt: real, root: Root) {
    !InRange(b, v, dt) && !Spent(Fly(b, dt, root))
  }

  /** One bullet meets a live opponent: it hits exactly when in range. */
  lemma MeetsLive(f: Flight, order: seq<nat>, id: nat, a: nat, b: nat, dt: real, root: Root)
    requires TwoPlayers(f.players, a, b) && Lists(order, f.players.Keys) && id in f.bullets
    requires f.bullets[id].owner == a || f.bullets[id].owner == b
    requires f.players[Other(a, b, f.bullets[id].owner)].Alive()
    ensures id in Advance(f, order, id, dt, root).bullets
      <==> FliesOn(f.bullets[id], f.players[Other(a, b, f.bullets[id].owner)], dt, root)
  {
    hide InRange, Param, Victim, Fly, Spent;
    var bl := f.bullets[id];
    var v := Other(a, b, bl.owner);
    FirstMetIsHit(f.players, order, bl, dt);
    assert forall o | Target(f.players, bl, o, dt) :: o == v by {
      assert forall o | o in f.players.Keys :: o == a || o == b;
    }
    assert Target(f.players, bl, v, dt) <==> InRange(bl, f.players[v], dt);
  }

  /** As long as its target outlives the step, a bullet's fate depends on nothing but itself
      and where the target stands. */
  lemma {:induction false} FateOf(f: Flight, order: seq<nat>, todo: seq<nat>, a: nat, b: nat, dt: real, root: Root,
                                  id: nat)
    requires TwoPlayers(f.players, a, b) && Lists(order, f.players.Keys) && NoRepeat(todo)
    requires id in todo && (forall x | x in todo :: x in f.bullets)
    requires f.bullets[id].owner == a || f.bullets[id].owner == b
    requires AdvanceAll(f, order, todo, dt, root).players[Other(a, b, f.bullets[id].owner)].Alive()
    ensures id in AdvanceAll(f, order, todo, dt, root).bullets
      <==> FliesOn(f.bullets[id], f.players[Other(a, b, f.bullets[id].owner)], dt, root)
    decreases |todo|
  {
    hide FliesOn, Advance, NoRepeat, Lists;
    var v := Other(a, b, f.bullets[id].owner);
    Tail(todo);
    OrderInside(order, f.players);
    var f1 := Advance(f, order, todo[0], dt, root);
    AdvanceFacts(f, order, todo[0], dt, root);
    AdvanceAllFacts(f1, order, todo[1..], dt, root);
    if id == todo[0] {
      MeetsLive(f, order, id, a, b, dt, root);
    } else {
      assert f1.bullets[id] == f.bullets[id];
      FateOf(f1, order, todo[1..], a, b, dt, root, id);
      FliesOnByPlace(f.bullets[id], f.players[v], f1.players[v], dt, root);
    }
  }

  lemma OrderInside(order: seq<nat>, players: map<nat, Player>)
    requires Lists(order, players.Keys)
    ensures forall o | o in order :: o in players
  {
  }

  lemma FliesOnByPlace(bl: Bullet, p: Player, q: Player, dt: real, root: Root)
    requires p.x == q.x && p.y == q.y
    ensures FliesOn(bl, p, dt, root) == FliesOn(bl, q, dt, root)
  {
    hide InRange, Spent, Fly;
    RangeByPlace(bl, p, q, dt);
  }

  // ---------------------------------------------------------------- one step

  /** Players are as prepared, but for the cooldown of those who fired and for the health. */
  ghost predicate PlayersAfter(now: map<nat, Player>, after: map<nat, Player>) {
    && after.Keys == now.Keys
    && (forall p | p in now ::
          after[p] == now[p].(cd := if Fires(now[p]) then ATTACK_CD else now[p].cd, hp := after[p].hp))
  }

  ghost predicate IsShot(bl: Bullet, now: map<nat, Player>, a: nat, b: nat, root: Root) {
    && bl.owner in now && Other(a, b, bl.owner) in now && Fires(now[bl.owner])
    && bl == ShotAt(now, bl.owner, Other(a, b, bl.owner), root)
  }

  ghost predicate HasNew(bullets: map<nat, Bullet>, first: nat, p: nat) {
    exists id :: id in bullets && first <= id && bullets[id].owner == p
  }

  /** There is a new bullet for everybody who fires, and no other. */
  ghost predicate NewBullets(bullets: map<nat, Bullet>, first: nat, now: map<nat, Player>, a: nat, b: nat, root: Root) {
    && (forall id | id in bullets && first <= id :: IsShot(bullets[id], now, a, b, root))
    && (forall i, j | i in bullets && j in bullets && first <= i < j :: bullets[i].owner != bullets[j].owner)
    && (forall p | p in now && Fires(now[p]) :: HasNew(bullets, first, p))
  }

  /** Old bullets that are left have flown on; while the target lives on, exactly those are
      left that miss it and are not spent. */
  ghost predicate OldBullet(bl: Bullet, id: nat, bullets: map<nat, Bullet>, now: map<nat, Player>,
                            after: map<nat, Player>, a: nat, b: nat, dt: real, root: Root)
  {
    && (id in bullets ==> bullets[id] == Fly(bl, dt, root) && !Spent(bullets[id]))
    && var v := Other(a, b, bl.owner);
       v in now && v in after
       && (after[v].Alive() ==> (id in bullets <==> FliesOn(bl, now[v], dt, root)))
  }

  ghost predicate OldBullets(before: map<nat, Bullet>, bullets: map<nat, Bullet>, first: nat,
                             now: map<nat, Player>, after: map<nat, Player>, a: nat, b: nat, dt: real, root: Root)
  {
    && (forall id | id in bullets && id < first :: id in before)
    && (forall id | id in before :: id < first && OldBullet(before[id], id, bullets, now, after, a, b, dt, root))
  }

  /** A step as a duel: nothing here mentions an order. */
  ghost predicate DuelStep(s: Sim, r: Sim, a: nat, b: nat, dtMs: nat, root: Root) {
    var now, dt := Prepare(s.players, dtMs, root), dtMs as real / 1000.0;
    && PlayersAfter(now, r.players) && s.nextId <= r.nextId && IdsBelow(r.bullets, r.nextId)
    && NewBullets(r.bullets, s.nextId, now, a, b, root)
    && OldBullets(s.bullets, r.bullets, s.nextId, now, r.players, a, b, dt, root)
  }

  /** Before bullets fly: the volley, seen from the prepared players. */
  lemma VolleyBeforeFlight(s: Sim, dtMs: nat, order: seq<nat>, root: Root, a: nat, b: nat)
    requires TwoPlayers(s.players, a, b) && Lists(order, s.players.Keys) && IdsBelow(s.bullets, s.nextId)
    ensures
      var s0 := s.(players := Prepare(s.players, dtMs, root), removed := []);
      s0.players.Keys == s.players.Keys && Volley(s0, BeforeFlight(s, dtMs, order, root), a, b, order, root)
  {
    hide Volley, Prepare, FireAll;
    PrepareFacts(s.players, dtMs, root);
    FireAllVolley(s.(players := Prepare(s.players, dtMs, root), removed := []), order, order, a, b, root);
  }

  /** A bullet that was visited and is still there has flown on. */
  lemma {:induction false} SurvivorsFlew(f: Flight, order: seq<nat>, todo: seq<nat>, dt: real, root: Root, x: nat)
    requires (forall o | o in order :: o in f.players) && NoRepeat(todo)
    requires x in todo && x in f.bullets && x in AdvanceAll(f, order, todo, dt, root).bullets
    ensures
      var b := AdvanceAll(f, order, todo, dt, root).bullets[x];
      b == Fly(f.bullets[x], dt, root) && !Spent(b)
    decreases |todo|
  {
    hide Victim, Fly, Spent, NoRepeat;
    Tail(todo);
    var f1 := Advance(f, order, todo[0], dt, root);
    AdvanceFacts(f, order, todo[0], dt, root);
    AdvanceAllFacts(f1, order, todo[1..], dt, root);
    if x != todo[0] {
      hide Advance;
      SurvivorsFlew(f1, order, todo[1..], dt, root, x);
    }
  }

  /** What flight does to the bullets it does not visit. */
  ghost predicate FlightKeeps(f: Flight, g: Flight, todo: seq<nat>) {
    && OnlyHp(f.players, g.players)
    && (forall x | x in g.bullets :: x in f.bullets)
    && (forall x | x in f.bullets && x !in todo :: x in g.bullets && g.bullets[x] == f.bullets[x])
  }

  lemma AdvanceAllKeeps(f: Flight, order: seq<nat>, todo: seq<nat>, dt: real, root: Root)
    requires (forall o | o in order :: o in f.players) && NoRepeat(todo)
    ensures FlightKeeps(f, AdvanceAll(f, order, todo, dt, root), todo)
  {
    hide AdvanceAll;
    AdvanceAllFacts(f, order, todo, dt, root);
  }

  lemma PlayersOfStep(s0: Sim, s1: Sim, f: Flight, g: Flight, order: seq<nat>, todo: seq<nat>, a: nat, b: nat,
                      root: Root)
    requires Volley(s0, s1, a, b, order, root) && Lists(order, s0.players.Keys)
    requires f.players == s1.players && FlightKeeps(f, g, todo)
    ensures PlayersAfter(s0.players, g.players)
  {
    hide Fires, ShotAt;
  }

  lemma NewOfStep(s0: Sim, s1: Sim, f: Flight, g: Flight, order: seq<nat>, todo: seq<nat>, a: nat, b: nat, root: Root)
    requires Volley(s0, s1, a, b, order, root) && Lists(order, s0.players.Keys) && IdsBelow(s0.bullets, s0.nextId)
    requires forall id | id in s1.bullets && id !in s0.bullets :: s0.nextId <= id
    requires f.bullets == s1.bullets && FlightKeeps(f, g, todo) && Lists(todo, s0.bullets.Keys)
    ensures NewBullets(g.bullets, s0.nextId, s0.players, a, b, root)
  {
    hide Fires, ShotAt, OnlyHp, Shooter;
    forall id | id in g.bullets && s0.nextId <= id
      ensures id !in s0.bullets && id in s1.bullets && g.bullets[id] == s1.bullets[id]
    {
      assert id !in s0.bullets.Keys;
    }
    forall p | p in s0.players && Fires(s0.players[p]) ensures HasNew(g.bullets, s0.nextId, p) {
      assert Fired(s0, s1, p);
      var id :| id in s1.bullets && id !in s0.bullets && s1.bullets[id].owner == p;
      assert id !in todo && id in g.bullets && g.bullets[id].owner == p;
    }
  }

  lemma OldOfStep(s: Sim, now: map<nat, Player>, f: Flight, order: seq<nat>, todo: seq<nat>, a: nat, b: nat, dt: real,
                  root: Root)
    requires TwoPlayers(f.players, a, b) && Lists(order, f.players.Keys) && Lists(todo, s.bullets.Keys)
    requires OwnersAre(s.bullets, {a, b}) && IdsBelow(s.bullets, s.nextId)
    requires (forall id | id in s.bullets :: id in f.bullets && f.bullets[id] == s.bullets[id])
    requires (forall id | id in f.bullets && id !in s.bullets :: s.nextId <= id)
    requires now.Keys == f.players.Keys && forall p | p in now ::
      f.players[p].x == now[p].x && f.players[p].y == now[p].y
    ensures
      var g := AdvanceAll(f, order, todo, dt, root);
      OldBullets(s.bullets, g.bullets, s.nextId, now, g.players, a, b, dt, root)
  {
    hide AdvanceAll, Fly, Spent, FliesOn, OnlyHp, Lists, NoRepeat;
    OrderInside(order, f.players);
    ListsParts(todo, s.bullets.Keys);
    AdvanceAllKeeps(f, order, todo, dt, root);
    var g := AdvanceAll(f, order, todo, dt, root);
    assert forall id | id in todo :: id in f.bullets;
    forall id | id in s.bullets ensures OldBullet(s.bullets[id], id, g.bullets, now, g.players, a, b, dt, root) {
      var bl := s.bullets[id];
      var v := Other(a, b, bl.owner);
      assert bl.owner in {a, b} && v in f.players.Keys;
      if id in g.bullets {
        SurvivorsFlew(f, order, todo, dt, root, id);
      }
      if g.players[v].Alive() {
        FateOf(f, order, todo, a, b, dt, root, id);
        FliesOnByPlace(bl, f.players[v], now[v], dt, root);
      }
    }
  }

  lemma ListsParts(order: seq<nat>, keys: set<nat>)
    requires Lists(order, keys)
    ensures NoRepeat(order) && (forall x | x in order :: x in keys) && (forall x | x in keys :: x in order)
  {
  }

  lemma StepIsDuel(s: Sim, dtMs: nat, order: seq<nat>, bulletOrder: seq<nat>, root: Root, a: nat, b: nat)
    requires TwoPlayers(s.players, a, b) && OwnersAre(s.bullets, {a, b}) && IdsBelow(s.bullets, s.nextId)
    requires Lists(order, s.players.Keys) && Lists(bulletOrder, s.bullets.Keys)
    ensures DuelStep(s, Step(s, dtMs, order, bulletOrder, root).0, a, b, dtMs, root)
  {
    hide BeforeFlight, AdvanceAll, Prepare, Lists, Volley, PlayersAfter, NewBullets, OldBullets, OwnersAre;
    var now, dt := Prepare(s.players, dtMs, root), dtMs as real / 1000.0;
    var s0 := s.(players := now, removed := []);
    var s1 := BeforeFlight(s, dtMs, order, root);
    VolleyBeforeFlight(s, dtMs, order, root, a, b);
    BeforeFlightFacts(s, dtMs, order, root);
    var f := Flight(s1.players, s1.bullets, [], Moved(s.players, s1.players), []);
    OrderInside(order, s.players);
    ListsParts(bulletOrder, s.bullets.Keys);
    AdvanceAllKeeps(f, order, bulletOrder, dt, root);
    var g := AdvanceAll(f, order, bulletOrder, dt, root);
    PlayersOfStep(s0, s1, f, g, order, bulletOrder, a, b, root);
    NewOfStep(s0, s1, f, g, order, bulletOrder, a, b, root);
    OldOfStep(s, now, f, order, bulletOrder, a, b, dt, root);
  }
}
