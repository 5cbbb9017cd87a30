/**
 Who is hit: a bullet cannot jump over a player between two ticks, and in a room of two
 the outcome of a step does not depend on the order in which hash maps are walked.
 */
module Collision {
  import opened Prelude
  import opened SimModel
  import opened SimFacts

  // ---------------------------------------------------------------- no tunnelling

  function ApartSq(b: Bullet, x: real, y: real): real {
    (x - b.x) * (x - b.x) + (y - b.y) * (y - b.y)
  }

  /** Distance along the segment is a quadratic in the fraction travelled. */
  lemma Quadratic(dx: real, dy: real, sx: real, sy: real, t: real)
    ensures (dx - sx * t) * (dx - sx * t) + (dy - sy * t) * (dy - sy * t)
         == (dx * dx + dy * dy) - 2.0 * t * (dx * sx + dy * sy) + t * t * (sx * sx + sy * sy)
  {
    assert (dx - sx * t) * (dx - sx * t) == dx * dx - 2.0 * t * (dx * sx) + t * t * (sx * sx);
    assert (dy - sy * t) * (dy - sy * t) == dy * dy - 2.0 * t * (dy * sy) + t * t * (sy * sy);
  }

  lemma Square(a: real)
    ensures a * a >= 0.0
  {
  }

  /** The clamped projection minimises the quadratic on [0, 1]. */
  lemma ClampMinimises(d: real, dv: real, l: real, s: real)
    requires l > EPS && 0.0 <= s <= 1.0
    ensures var t := Project(dv, l);
      0.0 <= t <= 1.0 && d - 2.0 * t * dv + t * t * l <= d - 2.0 * s * dv + s * s * l
  {
    var t := Project(dv, l);
    var q := dv / l;
    assert q * l == dv;
    assert (s - t) * (t - q) >= 0.0 by {
      if q < 0.0 {
        NonNegativeProduct(s, 0.0 - q);
      } else if q > 1.0 {
        NonNegativeProduct(1.0 - s, q - 1.0);
        assert (s - 1.0) * (1.0 - q) == (1.0 - s) * (q - 1.0);
      }
    }
    var gap := s - t;
    Difference(d, q, l, s, t);
    Square(gap);
    NonNegativeProduct(l, gap * gap);
    NonNegativeProduct(l, gap * (t - q));
  }

  lemma Difference(d: real, q: real, l: real, s: real, t: real)
    ensures (d - 2.0 * s * (q * l) + s * s * l) - (d - 2.0 * t * (q * l) + t * t * l)
         == l * ((s - t) * (s - t)) + 2.0 * (l * ((s - t) * (t - q)))
  {
    assert l * ((s - t) * (s - t)) == l * (s * s) - 2.0 * (l * (s * t)) + l * (t * t);
    assert l * ((s - t) * (t - q)) == l * (s * t) - l * (s * q) - l * (t * t) + l * (t * q);
  }

  lemma DistSqIsQuadratic(b: Bullet, x: real, y: real, dt: real, t: real)
    ensures DistSq(b, x, y, dt, t) == ApartSq(b, x, y) - 2.0 * t * Dot(b, x, y, dt) + t * t * SegLenSq(b, dt)
  {
    hide Segment;
    var (sx, sy) := Segment(b, dt);
    Quadratic(x - b.x, y - b.y, sx, sy, t);
    assert x - (b.x + sx * t) == (x - b.x) - sx * t;
    assert y - (b.y + sy * t) == (y - b.y) - sy * t;
  }

  /** The point the code tests is the closest one of the whole segment. */
  lemma ClosestPoint(b: Bullet, x: real, y: real, dt: real, s: real)
    requires SegLenSq(b, dt) > EPS && 0.0 <= s <= 1.0
    ensures 0.0 <= Fraction(b, x, y, dt) <= 1.0
    ensures DistSq(b, x, y, dt, Fraction(b, x, y, dt)) <= DistSq(b, x, y, dt, s)
  {
    hide Dot, SegLenSq, DistSq, ApartSq, Project;
    DistSqIsQuadratic(b, x, y, dt, s);
    DistSqIsQuadratic(b, x, y, dt, Fraction(b, x, y, dt));
    ClampMinimises(ApartSq(b, x, y), Dot(b, x, y, dt), SegLenSq(b, dt), s);
  }

  /**
   No tunnelling: if the bullet moves at all (more than a thousandth of a unit), a player
   is in hit range exactly when some point of the whole segment swept in this step lies
   within the hit radius.
   */
  lemma NoTunnelling(b: Bullet, p: Player, dt: real)
    requires SegLenSq(b, dt) > EPS
    ensures InRange(b, p, dt) <==> exists s: real :: 0.0 <= s <= 1.0 && DistSq(b, p.x, p.y, dt, s) <= RADIUS * RADIUS
  {
    hide DistSq, Fraction, Segment;
    ClosestPoint(b, p.x, p.y, dt, 0.0);
    if s: real :| 0.0 <= s <= 1.0 && DistSq(b, p.x, p.y, dt, s) <= RADIUS * RADIUS {
      ClosestPoint(b, p.x, p.y, dt, s);
    }
  }

  /** Of all players in range the one met first on the way is hit; somebody is hit exactly
      when somebody is in range. */
  lemma FirstMetIsHit(players: map<nat, Player>, order: seq<nat>, b: Bullet, dt: real)
    requires Lists(order, players.Keys)
    ensures
      var v := Victim(players, order, b, dt, None);
      && (v.Some? <==> exists o :: Target(players, b, o, dt))
      && (v.Some? ==> Target(players, b, v.value, dt)
                      && forall o | Target(players, b, o, dt) ::
                        Param(b, players[v.value], dt) <= Param(b, players[o], dt))
  {
    hide Param, InRange, Victim;
    VictimIsTarget(players, order, b, dt, None);
  }

  // ---------------------------------------------------------------- two players

  /** The bullets that come within range of player `v`, as its opponent's bullets fly. */
  function Threats(bullets: map<nat, Bullet>, v: nat, p: Player, dt: real): set<nat> {
    set id | id in bullets && bullets[id].owner != v && InRange(bullets[id], p, dt)
  }

  function CountThreats(bullets: map<nat, Bullet>, todo: seq<nat>, v: nat, p: Player, dt: real): nat
    decreases |todo|
  {
    if todo == [] then 0
    else (if todo[0] in Threats(bullets, v, p, dt) then 1 else 0) + CountThreats(bullets, todo[1..], v, p, dt)
  }

  lemma {:induction false} CountIsSize(bullets: map<nat, Bullet>, todo: seq<nat>, v: nat, p: Player, dt: real)
    requires NoRepeat(todo)
    ensures CountThreats(bullets, todo, v, p, dt) == |Threats(bullets, v, p, dt) * (set x | x in todo)|
    decreases |todo|
  {
    hide InRange, Threats;
    var ts := Threats(bullets, v, p, dt);
    if todo == [] {
      assert ts * (set x | x in todo) == {};
    } else {
      Tail(todo);
      CountIsSize(bullets, todo[1..], v, p, dt);
      var small := ts * (set x | x in todo[1..]);
      var big := ts * (set x | x in todo);
      hide NoRepeat, CountThreats;
      if todo[0] in ts {
        assert big == small + {todo[0]};
      } else {
        assert big == small;
      }
    }
  }

  function Damaged(hp: int, hits: nat): int {
    if hp - DAMAGE * hits > 0 then hp - DAMAGE * hits else 0
  }

  /** Range depends on where a player stands, not on its health. */
  lemma RangeByPlace(b: Bullet, p: Player, q: Player, dt: real)
    requires p.x == q.x && p.y == q.y
    ensures InRange(b, p, dt) == InRange(b, q, dt)
  {
    hide Near;
  }

  /** In a room of two, one bullet costs player `v` 25 exactly when it threatens `v` (and
      `v` is alive), whatever the iteration order. */
  lemma AdvanceTwo(f: Flight, order: seq<nat>, id: nat, a: nat, v: nat, dt: real, root: Root)
    requires a != v && f.players.Keys == {a, v} && Lists(order, f.players.Keys)
    requires id in f.bullets && f.players[v].hp >= 0
    requires f.bullets[id].owner == a || f.bullets[id].owner == v
    ensures
      var hit := id in Threats(f.bullets, v, f.players[v], dt);
      Advance(f, order, id, dt, root).players[v].hp == Damaged(f.players[v].hp, if hit then 1 else 0)
  {
    hide InRange, Param, Victim, Fly, Spent;
    var b := f.bullets[id];
    FirstMetIsHit(f.players, order, b, dt);
    if Target(f.players, b, v, dt) {
      assert forall o | Target(f.players, b, o, dt) :: o == v by {
        assert forall o | o in f.players.Keys :: o == a || o == v;
      }
    }
  }

  lemma {:induction false} AdvanceAllTwo(f: Flight, order: seq<nat>, todo: seq<nat>, a: nat, v: nat, dt: real,
                                         root: Root)
    requires a != v && f.players.Keys == {a, v} && Lists(order, f.players.Keys) && NoRepeat(todo)
    requires (forall id | id in todo :: id in f.bullets) && f.players[v].hp >= 0
    requires forall id | id in f.bullets :: f.bullets[id].owner == a || f.bullets[id].owner == v
    ensures AdvanceAll(f, order, todo, dt, root).players[v].hp
         == Damaged(f.players[v].hp, CountThreats(f.bullets, todo, v, f.players[v], dt))
    decreases |todo|
  {
    if todo != [] {
      hide InRange, Advance, Threats, NoRepeat;
      Tail(todo);
      var f1 := Advance(f, order, todo[0], dt, root);
      AdvanceTwo(f, order, todo[0], a, v, dt, root);
      AdvanceOthers(f, order, todo, v, dt, root);
      OwnersStay(f, f1, order, todo[0], a, v, dt, root);
      AdvanceAllTwo(f1, order, todo[1..], a, v, dt, root);
      SameCount(f.bullets, f1.bullets, todo[1..], v, f.players[v], f1.players[v], dt);
    }
  }

  lemma AdvanceOthers(f: Flight, order: seq<nat>, todo: seq<nat>, v: nat, dt: real, root: Root)
    requires Lists(order, f.players.Keys) && v in f.players
    requires todo != [] && NoRepeat(todo) && (forall id | id in todo :: id in f.bullets)
    ensures
      var f1 := Advance(f, order, todo[0], dt, root);
      && f1.players[v].x == f.players[v].x && f1.players[v].y == f.players[v].y
      && (forall id | id in todo[1..] :: id in f1.bullets && f1.bullets[id] == f.bullets[id])
  {
    hide Advance;
    AdvanceFacts(f, order, todo[0], dt, root);
    Tail(todo);
    hide NoRepeat;
    var f1 := Advance(f, order, todo[0], dt, root);
    assert forall id | id in todo[1..] :: id in f1.bullets.Keys;
  }

  lemma OwnersStay(f: Flight, f1: Flight, order: seq<nat>, id: nat, a: nat, v: nat, dt: real, root: Root)
    requires Lists(order, f.players.Keys) && f1 == Advance(f, order, id, dt, root)
    requires forall x | x in f.bullets :: f.bullets[x].owner == a || f.bullets[x].owner == v
    ensures forall x | x in f1.bullets :: f1.bullets[x].owner == a || f1.bullets[x].owner == v
  {
    hide Victim;
  }

  lemma {:induction false} SameCount(bs: map<nat, Bullet>, cs: map<nat, Bullet>, todo: seq<nat>, v: nat, p: Player,
                                     q: Player, dt: real)
    requires p.x == q.x && p.y == q.y
    requires forall id | id in todo :: id in bs && id in cs && bs[id] == cs[id]
    ensures CountThreats(bs, todo, v, p, dt) == CountThreats(cs, todo, v, q, dt)
    decreases |todo|
  {
    if todo != [] {
      RangeByPlace(bs[todo[0]], p, q, dt);
      hide InRange;
      SameCount(bs, cs, todo[1..], v, p, q, dt);
    }
  }

  ghost predicate OwnersAre(bullets: map<nat, Bullet>, ids: set<nat>) {
    forall id | id in bullets :: bullets[id].owner in ids
  }

  lemma {:induction false} FireAllOwners(s: Sim, order: seq<nat>, todo: seq<nat>, root: Root)
    requires (forall o | o in order :: o in s.players) && (forall o | o in todo :: o in s.players)
    requires OwnersAre(s.bullets, s.players.Keys)
    ensures OwnersAre(FireAll(s, order, todo, root).bullets, s.players.Keys)
    decreases |todo|
  {
    if todo != [] {
      hide Aim, Fires;
      var s1 := FireOne(s, order, todo[0], root);
      assert s1.players.Keys == s.players.Keys;
      hide NewBullet;
      FireAllOwners(s1, order, todo[1..], root);
    }
  }

  /** Where everybody stands when bullets fly does not depend on any order. */
  function StandAt(s: Sim, dtMs: nat, root: Root, v: nat): Player
    requires v in s.players
  {
    Prepare(s.players, dtMs, root)[v]
  }

  lemma {:induction false} CountOfList(bullets: map<nat, Bullet>, todo: seq<nat>, v: nat, p: Player, dt: real)
    requires Lists(todo, bullets.Keys)
    ensures CountThreats(bullets, todo, v, p, dt) == |Threats(bullets, v, p, dt)|
  {
    hide InRange;
    CountIsSize(bullets, todo, v, p, dt);
    assert Threats(bullets, v, p, dt) * (set x | x in todo) == Threats(bullets, v, p, dt);
  }

  /**
   In a room of two a step leaves player `v` with its health less 25 for every bullet of
   the opponent, live before the step, that comes within range of where `v` now stands,
   but not below zero.  Nothing on the right depends on an iteration order.
   */
  lemma HealthAfterStep(s: Sim, dtMs: nat, order: seq<nat>, bulletOrder: seq<nat>, root: Root, a: nat, v: nat)
    requires Lists(order, s.players.Keys) && Lists(bulletOrder, s.bullets.Keys) && IdsBelow(s.bullets, s.nextId)
    requires a != v && s.players.Keys == {a, v} && OwnersAre(s.bullets, {a, v}) && s.players[v].hp >= 0
    ensures
      Step(s, dtMs, order, bulletOrder, root).0.players[v].hp
        == Damaged(s.players[v].hp, |Threats(s.bullets, v, StandAt(s, dtMs, root, v), dtMs as real / 1000.0)|)
  {
    hide AdvanceAll, Prepare, FireAll, Threats, CountThreats, Damaged;
    var dt := dtMs as real / 1000.0;
    PrepareFacts(s.players, dtMs, root);
    var s0 := s.(players := Prepare(s.players, dtMs, root), removed := []);
    FireAllOwners(s0, order, order, root);
    FireAllFacts(s0, order, order, root);
    var s1 := BeforeFlight(s, dtMs, order, root);
    hide BeforeFlight, OwnersAre;
    OwnersSpelled(s1.bullets, a, v);
    var f := Flight(s1.players, s1.bullets, [], Moved(s.players, s1.players), []);
    AdvanceAllTwo(f, order, bulletOrder, a, v, dt, root);
    SameCount(s1.bullets, s.bullets, bulletOrder, v, s1.players[v], StandAt(s, dtMs, root, v), dt);
    CountOfList(s.bullets, bulletOrder, v, StandAt(s, dtMs, root, v), dt);
  }

  lemma OwnersSpelled(bullets: map<nat, Bullet>, a: nat, v: nat)
    requires OwnersAre(bullets, {a, v})
    ensures forall id | id in bullets :: bullets[id].owner == a || bullets[id].owner == v
  {
  }

  lemma PositionAfterStep(s: Sim, dtMs: nat, order: seq<nat>, bulletOrder: seq<nat>, root: Root, v: nat)
    requires Lists(order, s.players.Keys) && Lists(bulletOrder, s.bullets.Keys) && IdsBelow(s.bullets, s.nextId)
    requires v in s.players
    ensures
      var r := Step(s, dtMs, order, bulletOrder, root).0;
      r.players[v].x == StandAt(s, dtMs, root, v).x && r.players[v].y == StandAt(s, dtMs, root, v).y
  {
    hide BeforeFlight, AdvanceAll, Prepare;
    BeforeFlightFacts(s, dtMs, order, root);
    PrepareFacts(s.players, dtMs, root);
    var s1 := BeforeFlight(s, dtMs, order, root);
    var f := Flight(s1.players, s1.bullets, [], Moved(s.players, s1.players), []);
    AdvanceAllFacts(f, order, bulletOrder, dtMs as real / 1000.0, root);
  }

  /** Order independence: positions and health after a step in a room of two do not depend
      on the order in which players and bullets are visited. */
  lemma OrderDoesNotMatter(s: Sim, dtMs: nat, root: Root, a: nat, b: nat, v: nat,
                           order1: seq<nat>, bullets1: seq<nat>, order2: seq<nat>, bullets2: seq<nat>)
    requires Lists(order1, s.players.Keys) && Lists(bullets1, s.bullets.Keys)
    requires Lists(order2, s.players.Keys) && Lists(bullets2, s.bullets.Keys)
    requires IdsBelow(s.bullets, s.nextId) && a != b && s.players.Keys == {a, b} && OwnersAre(s.bullets, {a, b})
    requires v in s.players && s.players[v].hp >= 0
    ensures
      var p := Step(s, dtMs, order1, bullets1, root).0.players[v];
      var q := Step(s, dtMs, order2, bullets2, root).0.players[v];
      p.x == q.x && p.y == q.y && p.hp == q.hp
  {
    hide Step, StandAt, Threats, OwnersAre;
    var o := if v == a then b else a;
    assert {o, v} == {a, b};
    HealthAfterStep(s, dtMs, order1, bullets1, root, o, v);
    HealthAfterStep(s, dtMs, order2, bullets2, root, o, v);
    PositionAfterStep(s, dtMs, order1, bullets1, root, v);
    PositionAfterStep(s, dtMs, order2, bullets2, root, v);
  }
}
