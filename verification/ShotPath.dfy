/**
 The way of a shot: it starts two units from the shooter towards the target and flies on
 three units a tick along the straight line, so a target that stands still is hit after a
 number of ticks read off its distance.
 */
module ShotPath {
  import opened Prelude
  import opened SimModel
  import opened SimFacts
  import opened Collision
  import opened Movement
  import opened Heading
  import opened Duel
  import opened DuelRuns
  import opened BulletRuns
  import opened Replication

  // ---------------------------------------------------------------- where a shot goes

  /**
   A shot at a live enemy at distance `d`, not on practically the same spot: it starts two
   units away from the shooter and flies at 60, both in exactly the direction of the enemy.
   */
  lemma ShotGoesTowards(now: map<nat, Player>, p: nat, v: nat, root: Root, d: real)
    requires IsRoot(root) && p in now && v in now && now[v].hp > 0
    requires d > 0.000001 && Sq(d) == Sq(now[v].x - now[p].x) + Sq(now[v].y - now[p].y)
    ensures
      var b := ShotAt(now, p, v, root);
      var (tx, ty) := (now[v].x - now[p].x, now[v].y - now[p].y);
      var (sx, sy) := (b.x - now[p].x, b.y - now[p].y);
      && SameWay(sx, sy, tx, ty) && Sq(sx) + Sq(sy) == 4.0
      && SameWay(b.vx, b.vy, tx, ty) && Sq(b.vx) + Sq(b.vy) == 3600.0
      && Times(d, sx) == 2.0 * tx && Times(d, sy) == 2.0 * ty
      && Times(d, b.vx) == 60.0 * tx && Times(d, b.vy) == 60.0 * ty
      && b.owner == p && b.traveled == 0.0
  {
    var tx, ty := now[v].x - now[p].x, now[v].y - now[p].y;
    TowardIs(tx, ty, root, d);
    var c := 1.0 / d;
    var b := ShotAt(now, p, v, root);
    var ux, uy := Times(tx, c), Times(ty, c);
    assert b == NewBullet(now[p], p, (ux, uy));
    hide IsRoot, Toward;
    Scaled2(tx, c, 2.0);
    Scaled2(ty, c, 2.0);
    Scaled2(tx, c, 60.0);
    Scaled2(ty, c, 60.0);
    assert b.x - now[p].x == Times(tx, Times(c, 2.0)) && b.y - now[p].y == Times(ty, Times(c, 2.0));
    assert b.vx == Times(tx, Times(c, 60.0)) && b.vy == Times(ty, Times(c, 60.0));
    hide NewBullet, ShotAt;
    Reaches(tx, ty, d, 2.0);
    Reaches(tx, ty, d, 60.0);
    assert Sq(2.0) == 4.0 && Sq(60.0) == 3600.0;
  }

  lemma TowardIs(tx: real, ty: real, root: Root, d: real)
    requires IsRoot(root) && d > 0.000001 && Sq(d) == Sq(tx) + Sq(ty)
    ensures Toward(tx, ty, root) == (Times(tx, 1.0 / d), Times(ty, 1.0 / d))
  {
    NormIs(tx, ty, root);
    hide IsRoot, Norm, Sq;
    OnlyRoot(Norm(tx, ty, root), d);
    DivideIsTimes(tx, d);
    DivideIsTimes(ty, d);
  }

  lemma Scaled2(t: real, c: real, k: real)
    ensures Times(t, c) * k == Times(t, Times(c, k))
  {
    assert (t * c) * k == t * (c * k);
  }

  /** A vector of length `d` scaled by `k / d` has length `k`. */
  lemma Reaches(tx: real, ty: real, d: real, k: real)
    requires d > 0.0 && k > 0.0 && Sq(d) == Sq(tx) + Sq(ty)
    ensures
      var f := Times(1.0 / d, k);
      && SameWay(Times(tx, f), Times(ty, f), tx, ty)
      && Sq(Times(tx, f)) + Sq(Times(ty, f)) == Sq(k)
      && Times(d, Times(tx, f)) == k * tx && Times(d, Times(ty, f)) == k * ty
  {
    var f := Times(1.0 / d, k);
    Divides(1.0, d);
    assert Times(d, f) == k by {
      assert d * ((1.0 / d) * k) == ((1.0 / d) * d) * k;
    }
    PositiveInverse(d);
    PositiveProduct(1.0 / d, k);
    hide Sq, SameWay;
    Stretched(tx, ty, f, d);
    assert d * (tx * f) == (d * f) * tx;
    assert d * (ty * f) == (d * f) * ty;
  }

  lemma PositiveInverse(d: real)
    requires d > 0.0
    ensures 1.0 / d > 0.0
  {
  }

  /** With no live enemy a shot goes where the shooter last moved. */
  lemma ShotGoesAhead(now: map<nat, Player>, p: nat, v: nat, root: Root)
    requires p in now && v in now && now[v].hp <= 0
    ensures
      var b := ShotAt(now, p, v, root);
      && b.x - now[p].x == 2.0 * now[p].fx && b.y - now[p].y == 2.0 * now[p].fy
      && b.vx == 60.0 * now[p].fx && b.vy == 60.0 * now[p].fy && b.owner == p && b.traveled == 0.0
  {
    hide Toward;
  }

  // ---------------------------------------------------------------- from tick to tick

  lemma AxisEnds(x: real, v: real, dt: real)
    ensures x + v * dt - (x + ((x + v * dt) - x) * 1.0) == 0.0
  {
  }

  /** A bullet flies to the very end of the segment it was tested on, and the next segment
      begins there: whatever it passes between two ticks has been looked at. */
  lemma SegmentsJoin(b: Bullet, dt: real, root: Root, x: real, y: real, dt': real)
    ensures
      var b' := Fly(b, dt, root);
      && DistSq(b, b'.x, b'.y, dt, 1.0) == 0.0
      && DistSq(b', x, y, dt', 0.0) == DistSq(b, x, y, dt, 1.0)
  {
    hide SegLenSq;
    var b' := Fly(b, dt, root);
    AxisEnds(b.x, b.vx, dt);
    AxisEnds(b.y, b.vy, dt);
    var (sx, sy) := Segment(b, dt);
    var (tx, ty) := Segment(b', dt');
    assert b.x + sx * 1.0 == b'.x && b.y + sy * 1.0 == b'.y;
    assert b'.x + tx * 0.0 == b'.x && b'.y + ty * 0.0 == b'.y;
  }

  // ---------------------------------------------------------------- the straight line

  /** After `j` ticks of flight the bullet is `2 + 3 j` along the way from (px, py) in the
      direction (tx, ty) of length `d`. */
  ghost predicate OnCourse(b: Bullet, px: real, py: real, tx: real, ty: real, d: real, j: nat) {
    && d > 0.0 && Sq(d) == Sq(tx) + Sq(ty)
    && Times(d, b.x - px) == Times(tx, 2.0 + 3.0 * j as real) && Times(d, b.y - py) == Times(ty, 2.0 + 3.0 * j as real)
    && Times(d, b.vx) == 60.0 * tx && Times(d, b.vy) == 60.0 * ty
    && b.traveled == 3.0 * j as real
  }

  lemma CancelTimes(a: real, b: real, k: real)
    requires k > 0.0 && Times(k, a) == Times(k, b)
    ensures a == b
  {
    TimesCommutes(k, a);
    TimesCommutes(k, b);
    SameByProduct(a, b, k);
  }

  lemma PositiveSq(d: real)
    requires d > 0.0
    ensures Sq(d) > 0.0
  {
    StrictSquares(0.0, d);
    assert Sq(0.0) == 0.0;
    hide Sq;
  }

  /** Two vectors whose multiples by `d` are the multiples of (tx, ty) by `h`. */
  lemma LengthByScale(x: real, y: real, tx: real, ty: real, d: real, h: real)
    requires d > 0.0 && Sq(d) == Sq(tx) + Sq(ty) && Times(d, x) == Times(tx, h) && Times(d, y) == Times(ty, h)
    ensures Sq(x) + Sq(y) == Sq(h)
  {
    PositiveSq(d);
    hide Sq, Times;
    SquareOfProduct(d, x);
    SquareOfProduct(d, y);
    SquareOfProduct(tx, h);
    SquareOfProduct(ty, h);
    Distributes(Sq(tx), Sq(ty), Sq(h));
    TimesCommutes(Sq(d), Sq(x) + Sq(y));
    Distributes(Sq(x), Sq(y), Sq(d));
    TimesCommutes(Sq(x), Sq(d));
    TimesCommutes(Sq(y), Sq(d));
    CancelTimes(Sq(x) + Sq(y), Sq(h), Sq(d));
  }

  lemma CourseIsUnit(b: Bullet, px: real, py: real, tx: real, ty: real, d: real, j: nat)
    requires OnCourse(b, px, py, tx, ty, d, j)
    ensures Unit(b)
  {
    assert Times(tx, 60.0) == 60.0 * tx && Times(ty, 60.0) == 60.0 * ty;
    LengthByScale(b.vx, b.vy, tx, ty, d, 60.0);
  }

  lemma AxisFlies(d: real, t: real, g: real, x: real, px: real, v: real)
    requires Times(d, x - px) == Times(t, g) && Times(d, v) == 60.0 * t
    ensures Times(d, x + v * 0.05 - px) == Times(t, g + 3.0)
  {
    assert d * (x + v * 0.05 - px) == d * (x - px) + (d * v) * 0.05;
    assert t * (g + 3.0) == t * g + 3.0 * t;
  }

  lemma CourseFlies(b: Bullet, px: real, py: real, tx: real, ty: real, d: real, j: nat, root: Root)
    requires IsRoot(root) && OnCourse(b, px, py, tx, ty, d, j)
    ensures OnCourse(Fly(b, TICK_MS as real / 1000.0, root), px, py, tx, ty, d, j + 1)
  {
    CourseIsUnit(b, px, py, tx, ty, d, j);
    UnitFly(b, root);
    assert TICK_MS as real / 1000.0 == 0.05;
    var g := 2.0 + 3.0 * j as real;
    assert 2.0 + 3.0 * (j + 1) as real == g + 3.0;
    hide IsRoot, Unit, Times, Sq, SegLenSq;
    AxisFlies(d, tx, g, b.x, px, b.vx);
    AxisFlies(d, ty, g, b.y, py, b.vy);
  }

  // ---------------------------------------------------------------- hit or miss

  lemma AxisGap(d: real, t: real, g: real, x: real, px: real, v: real, s: real, sx: real)
    requires Times(d, x - px) == Times(t, g) && Times(d, v) == 60.0 * t && sx == v * 0.05
    ensures Times(d, px + t - (x + sx * s)) == Times(t, d - g - 3.0 * s)
  {
    assert d * (px + t - (x + sx * s)) == d * t - d * (x - px) - (d * v) * (0.05 * s);
    assert (60.0 * t) * (0.05 * s) == t * (3.0 * s);
    assert t * (d - g - 3.0 * s) == t * d - t * g - t * (3.0 * s);
  }

  lemma DistSqParts(b: Bullet, x: real, y: real, s: real) returns (sx: real, sy: real)
    ensures sx == b.vx * 0.05 && sy == b.vy * 0.05
    ensures DistSq(b, x, y, TICK_MS as real / 1000.0, s) == Sq(x - (b.x + sx * s)) + Sq(y - (b.y + sy * s))
  {
    assert TICK_MS as real / 1000.0 == 0.05;
    var seg := Segment(b, TICK_MS as real / 1000.0);
    sx, sy := seg.0, seg.1;
  }

  /** On the line the distance to the target is what is left of the way. */
  lemma GapOnCourse(b: Bullet, px: real, py: real, tx: real, ty: real, d: real, j: nat, s: real)
    requires OnCourse(b, px, py, tx, ty, d, j)
    ensures DistSq(b, px + tx, py + ty, TICK_MS as real / 1000.0, s) == Sq(d - (2.0 + 3.0 * j as real) - 3.0 * s)
  {
    hide DistSq, Sq, Times;
    var sx, sy := DistSqParts(b, px + tx, py + ty, s);
    var g := 2.0 + 3.0 * j as real;
    var dx, dy := px + tx - (b.x + sx * s), py + ty - (b.y + sy * s);
    AxisGap(d, tx, g, b.x, px, b.vx, s, sx);
    AxisGap(d, ty, g, b.y, py, b.vy, s, sy);
    LengthByScale(dx, dy, tx, ty, d, d - g - 3.0 * s);
  }

  ghost predicate StandsAt(p: Player, x: real, y: real) {
    p.x == x && p.y == y
  }

  /** With the target more than three beyond the end of this tick's way the bullet misses;
      otherwise, if it has not left the target behind, it hits. */
  lemma CourseHitsIff(b: Bullet, px: real, py: real, tx: real, ty: real, d: real, j: nat, q: Player)
    requires OnCourse(b, px, py, tx, ty, d, j) && StandsAt(q, px + tx, py + ty) && 3.0 * j as real <= d + 1.0
    ensures InRange(b, q, TICK_MS as real / 1000.0) <==> d <= 8.0 + 3.0 * j as real
  {
    var dt := TICK_MS as real / 1000.0;
    CourseIsUnit(b, px, py, tx, ty, d, j);
    UnitSegment(b);
    NoTunnelling(b, q, dt);
    hide Unit, SegLenSq, InRange, DistSq, OnCourse;
    var left := d - (2.0 + 3.0 * j as real);
    if d <= 8.0 + 3.0 * j as real {
      var s := if left <= 3.0 then 0.0 else (left - 3.0) / 3.0;
      GapOnCourse(b, px, py, tx, ty, d, j, s);
      Squares(left - 3.0 * s, 3.0);
      assert DistSq(b, q.x, q.y, dt, s) <= RADIUS * RADIUS;
    } else {
      forall s: real | 0.0 <= s <= 1.0 ensures DistSq(b, q.x, q.y, dt, s) > RADIUS * RADIUS {
        GapOnCourse(b, px, py, tx, ty, d, j, s);
        StrictSquares(3.0, left - 3.0 * s);
      }
    }
  }

  lemma SignByTimes(d: real, u: real)
    requires d > 0.0 && Times(d, u) >= 0.0
    ensures u >= 0.0
  {
    assert u == d * u / d;
  }

  lemma AxisInside(d: real, t: real, g: real, x: real, px: real)
    requires d > 0.0 && 0.0 <= g <= d && Times(d, x - px) == Times(t, g)
    requires 0.0 <= px <= ARENA && 0.0 <= px + t <= ARENA
    ensures 0.0 <= x <= ARENA
  {
    if t >= 0.0 {
      NonNegativeProduct(t, g);
      NonNegativeProduct(t, d - g);
      SignByTimes(d, x - px);
      assert d * (px + t - x) == t * d - t * g;
      SignByTimes(d, px + t - x);
    } else {
      NonNegativeProduct(-t, g);
      NonNegativeProduct(-t, d - g);
      assert d * (px - x) == (-t) * g;
      SignByTimes(d, px - x);
      assert d * (x - px - t) == (-t) * (d - g);
      SignByTimes(d, x - px - t);
    }
  }

  /** Between two places in the arena, and within range, a bullet is not spent. */
  lemma CourseGoesOn(b: Bullet, px: real, py: real, tx: real, ty: real, d: real, j: nat)
    requires OnCourse(b, px, py, tx, ty, d, j) && 2.0 + 3.0 * j as real <= d && j <= 21
    requires 0.0 <= px <= ARENA && 0.0 <= px + tx <= ARENA && 0.0 <= py <= ARENA && 0.0 <= py + ty <= ARENA
    ensures !Spent(b)
  {
    hide Sq, Times;
    AxisInside(d, tx, 2.0 + 3.0 * j as real, b.x, px);
    AxisInside(d, ty, 2.0 + 3.0 * j as real, b.y, py);
  }

  // ---------------------------------------------------------------- a target that stands still

  /** At the start and after every event the player is at (x, y). */
  ghost predicate StandsStill(b: Battle, es: seq<Event>, root: Root, v: nat, x: real, y: real)
    requires ValidRun(b, es, root)
    decreases |es|
  {
    && v in b.sim.players && StandsAt(b.sim.players[v], x, y)
    && (es != [] ==> StandsStill(Happen(b, es[0], root), es[1..], root, v, x, y))
  }

  function TickCount(es: seq<Event>): nat {
    if es == [] then 0 else (if es[0].Tick? then 1 else 0) + TickCount(es[1..])
  }

  /** Health never comes back. */
  lemma {:induction false} HealthOnlyFalls(b: Battle, es: seq<Event>, root: Root, a: nat, c: nat, v: nat)
    requires IsRoot(root) && DuelOk(b, a, c) && ValidRun(b, es, root) && v in b.sim.players
    ensures v in Play(b, es, root).sim.players && Play(b, es, root).sim.players[v].hp <= b.sim.players[v].hp
    decreases |es|
  {
    if es != [] {
      hide IsRoot, OrdersFit, DuelOk;
      EventHealth(b, es[0], root, a, c, v);
      HealthOnlyFalls(Happen(b, es[0], root), es[1..], root, a, c, v);
    }
  }

  lemma EventHealth(b: Battle, e: Event, root: Root, a: nat, c: nat, v: nat)
    requires IsRoot(root) && DuelOk(b, a, c) && Possible(b, e, root) && v in b.sim.players
    ensures DuelOk(Happen(b, e, root), a, c)
    ensures v in Happen(b, e, root).sim.players && Happen(b, e, root).sim.players[v].hp <= b.sim.players[v].hp
  {
    if !b.ended {
      match e {
        case GotInput(pid, i) => hide DuelOk, IsRoot; InputDuelOk(b, pid, i, a, c);
        case Tick(o) =>
          TickDuelOk(b, o, root, a, c);
          assert IdsBelow(b.sim.bullets, b.sim.nextId);
          hide DuelOk, IsRoot, Step, Winner, Lists, NoRepeat, Visible;
          StepFacts(b.sim, TICK_MS, o.players, o.bullets, root);
      }
    }
  }

  /** The bullet of `p` is on course to where `q` stands, `j` ticks after it was fired. */
  ghost predicate Coming(b: Battle, id: nat, p: nat, q: nat, px: real, py: real, tx: real, ty: real, d: real, j: nat) {
    && id in b.sim.bullets && b.sim.bullets[id].owner == p && OnCourse(b.sim.bullets[id], px, py, tx, ty, d, j)
    && BothAlive(b.sim.players, p, q) && !b.ended
    && 0.0 <= px <= ARENA && 0.0 <= px + tx <= ARENA && 0.0 <= py <= ARENA && 0.0 <= py + ty <= ARENA
    && 3.0 * j as real <= d + 1.0 && d <= 71.0
  }

  /** Flight moves nobody: after the tick everybody is where the bullets found it. */
  lemma NowStands(s: Sim, r: Sim, root: Root, p: nat, q: nat)
    requires DuelStep(s, r, p, q, TICK_MS, root) && q in r.players
    ensures q in Prepare(s.players, TICK_MS, root)
    ensures StandsAt(Prepare(s.players, TICK_MS, root)[q], r.players[q].x, r.players[q].y)
  {
    hide Prepare, NewBullets, OldBullets, IdsBelow, Fires;
  }

  lemma ThreatHurts(b: Battle, o: Orders, root: Root, p: nat, q: nat, id: nat)
    requires DuelOk(b, p, q) && OrdersFit(b, o, root) && q in b.sim.players && b.sim.players[q].hp > 0
    requires id in b.sim.bullets && b.sim.bullets[id].owner == p && q in Prepare(b.sim.players, TICK_MS, root)
    requires InRange(b.sim.bullets[id], Prepare(b.sim.players, TICK_MS, root)[q], TICK_MS as real / 1000.0)
    ensures q in Stepped(b, o, root).players && Stepped(b, o, root).players[q].hp < b.sim.players[q].hp
  {
    hide Step, Lists, AllInside, InRange, Prepare, HpOk;
    Sided(b, o, root, p, q);
    assert {p, q} == {q, p};
    HealthAfterStep(b.sim, TICK_MS, o.players, o.bullets, root, p, q);
    var threats := Threats(b.sim.bullets, q, StandAt(b.sim, TICK_MS, root, q), TICK_MS as real / 1000.0);
    assert id in threats;
    OneAtLeast(threats, id);
  }

  lemma OneAtLeast(xs: set<nat>, x: nat)
    requires x in xs
    ensures |xs| >= 1
  {
  }

  lemma StillGoing(b: Battle, p: nat, q: nat)
    requires DuelOk(b, p, q) && !b.ended && p != 0 && q != 0 && q in b.sim.players && b.sim.players[q].hp > 0
    ensures BothAlive(b.sim.players, p, q)
  {
    hide OwnersAre, HpOk, AllInside;
    assert p in b.sim.players.Keys;
  }

  /** A bullet on course that cannot reach its target in this tick is on course after it. */
  lemma FliesCloser(s: Sim, r: Sim, root: Root, id: nat, p: nat, q: nat,
                    px: real, py: real, tx: real, ty: real, d: real, j: nat)
    requires IsRoot(root) && DuelStep(s, r, p, q, TICK_MS, root) && p != q && q in r.players && r.players[q].hp > 0
    requires id in s.bullets && s.bullets[id].owner == p && OnCourse(s.bullets[id], px, py, tx, ty, d, j)
    requires StandsAt(r.players[q], px + tx, py + ty) && 8.0 + 3.0 * j as real < d <= 71.0
    requires 0.0 <= px <= ARENA && 0.0 <= px + tx <= ARENA && 0.0 <= py <= ARENA && 0.0 <= py + ty <= ARENA
    ensures id in r.bullets && r.bullets[id].owner == p && OnCourse(r.bullets[id], px, py, tx, ty, d, j + 1)
  {
    var now, dt, bl := Prepare(s.players, TICK_MS, root), TICK_MS as real / 1000.0, s.bullets[id];
    NowStands(s, r, root, p, q);
    hide IsRoot, OnCourse, InRange, Spent, Prepare, PlayersAfter, NewBullets;
    CourseHitsIff(bl, px, py, tx, ty, d, j, now[q]);
    CourseFlies(bl, px, py, tx, ty, d, j, root);
    CourseGoesOn(Fly(bl, dt, root), px, py, tx, ty, d, j + 1);
    assert OldBullet(bl, id, r.bullets, now, r.players, p, q, dt, root);
  }

  /** What a tick makes of it: the target is hurt, or somebody has won, or the bullet has come
      three units closer. */
  lemma ComesCloser(b: Battle, o: Orders, root: Root, id: nat, p: nat, q: nat,
                    px: real, py: real, tx: real, ty: real, d: real, j: nat)
    requires IsRoot(root) && DuelOk(b, p, q) && OrdersFit(b, o, root) && p != 0 && q != 0
    requires Coming(b, id, p, q, px, py, tx, ty, d, j)
    requires q in Ticked(b, o, root).sim.players && StandsAt(Ticked(b, o, root).sim.players[q], px + tx, py + ty)
    ensures
      var b' := Ticked(b, o, root);
      || b'.sim.players[q].hp < b.sim.players[q].hp || b'.ended
      || (d > 8.0 + 3.0 * j as real && Coming(b', id, p, q, px, py, tx, ty, d, j + 1))
  {
    hide IsRoot, OrdersFit, DuelStep, DuelOk, Ticked, Stepped, OnCourse, InRange, Prepare, Lists, TwoPlayers;
    var b' := Ticked(b, o, root);
    TickDuelOk(b, o, root, p, q);
    NotSame(b, p, q);
    OrdersLists(b, o, root);
    TickedSim(b, o, root);
    var s, r := b.sim, Stepped(b, o, root);
    if d <= 8.0 + 3.0 * j as real {
      NowStands(s, r, root, p, q);
      CourseHitsIff(s.bullets[id], px, py, tx, ty, d, j, Prepare(s.players, TICK_MS, root)[q]);
      ThreatHurts(b, o, root, p, q, id);
    } else if r.players[q].hp > 0 && !b'.ended {
      FliesCloser(s, r, root, id, p, q, px, py, tx, ty, d, j);
      StillGoing(b', p, q);
    }
  }

  lemma NotSame(b: Battle, p: nat, q: nat)
    requires DuelOk(b, p, q)
    ensures p != q
  {
  }

  lemma TickedSim(b: Battle, o: Orders, root: Root)
    requires OrdersFit(b, o, root)
    ensures Lists(o.players, b.sim.players.Keys) && Lists(o.bullets, b.sim.bullets.Keys)
    ensures Ticked(b, o, root).sim.players == Stepped(b, o, root).players
    ensures Ticked(b, o, root).sim.bullets == Stepped(b, o, root).bullets
  {
    hide Stepped, Winner, Step, Lists;
  }

  lemma ComingInput(b: Battle, pid: nat, i: Input, id: nat, p: nat, q: nat,
                    px: real, py: real, tx: real, ty: real, d: real, j: nat)
    requires Coming(b, id, p, q, px, py, tx, ty, d, j)
    ensures Coming(b.(sim := ApplyInput(b.sim, pid, i)), id, p, q, px, py, tx, ty, d, j)
    ensures ApplyInput(b.sim, pid, i).players[q].hp == b.sim.players[q].hp
  {
    hide OnCourse;
  }

  /** What any event makes of it. */
  lemma ComingEvent(b: Battle, e: Event, root: Root, id: nat, p: nat, q: nat,
                    px: real, py: real, tx: real, ty: real, d: real, j: nat)
    requires IsRoot(root) && DuelOk(b, p, q) && Possible(b, e, root) && p != 0 && q != 0
    requires Coming(b, id, p, q, px, py, tx, ty, d, j)
    requires
      q in Happen(b, e, root).sim.players && StandsAt(Happen(b, e, root).sim.players[q], px + tx, py + ty)
    ensures
      var b' := Happen(b, e, root);
      || b'.sim.players[q].hp < b.sim.players[q].hp || b'.ended
      || (e.Tick? && d > 8.0 + 3.0 * j as real && Coming(b', id, p, q, px, py, tx, ty, d, j + 1))
      || (!e.Tick? && Coming(b', id, p, q, px, py, tx, ty, d, j))
  {
    hide IsRoot, OrdersFit, DuelOk, OnCourse, Ticked, ApplyInput, StandsAt;
    match e {
      case Tick(o) => ComesCloser(b, o, root, id, p, q, px, py, tx, ty, d, j);
      case GotInput(pid, i) => ComingInput(b, pid, i, id, p, q, px, py, tx, ty, d, j);
    }
  }

  /** A bullet on its way hits a target that stands still, if it is given the ticks. */
  lemma {:induction false} ComingHits(b: Battle, es: seq<Event>, root: Root, id: nat, p: nat, q: nat,
                                      px: real, py: real, tx: real, ty: real, d: real, j: nat)
    requires IsRoot(root) && DuelOk(b, p, q) && ValidRun(b, es, root) && p != 0 && q != 0
    requires Coming(b, id, p, q, px, py, tx, ty, d, j) && StandsStill(b, es, root, q, px + tx, py + ty)
    requires TickCount(es) >= 1 && d <= 5.0 + 3.0 * (j + TickCount(es)) as real
    ensures q in Play(b, es, root).sim.players
    ensures Play(b, es, root).ended || Play(b, es, root).sim.players[q].hp < b.sim.players[q].hp
    decreases |es|
  {
    hide IsRoot, Possible, DuelOk, Coming, Happen, StandsAt;
    var b' := Happen(b, es[0], root);
    StandsAfter(b, es, root, q, px + tx, py + ty);
    EventHealth(b, es[0], root, p, q, q);
    HealthOnlyFalls(b', es[1..], root, p, q, q);
    EndedStays(b', es[1..], root);
    ComingEvent(b, es[0], root, id, p, q, px, py, tx, ty, d, j);
    if !b'.ended && b'.sim.players[q].hp >= b.sim.players[q].hp {
      if es[0].Tick? {
        TicksLeft(d, j, TickCount(es[1..]));
        ComingHits(b', es[1..], root, id, p, q, px, py, tx, ty, d, j + 1);
      } else {
        ComingHits(b', es[1..], root, id, p, q, px, py, tx, ty, d, j);
      }
    }
  }

  lemma StandsAfter(b: Battle, es: seq<Event>, root: Root, v: nat, x: real, y: real)
    requires ValidRun(b, es, root) && es != [] && StandsStill(b, es, root, v, x, y)
    ensures
      var b' := Happen(b, es[0], root);
      && v in b.sim.players && v in b'.sim.players && StandsAt(b'.sim.players[v], x, y)
      && StandsStill(b', es[1..], root, v, x, y)
  {
    hide Happen, Possible, StandsAt;
  }

  lemma TicksLeft(d: real, j: nat, n: nat)
    requires d > 8.0 + 3.0 * j as real && d <= 5.0 + 3.0 * (j + 1 + n) as real
    ensures n >= 1
  {
    assert (j + 1 + n) as real == j as real + 1.0 + n as real;
  }

  lemma {:induction false} EndedStays(b: Battle, es: seq<Event>, root: Root)
    requires ValidRun(b, es, root)
    ensures b.ended ==> Play(b, es, root).ended
    decreases |es|
  {
    if es != [] && b.ended {
      EndedStays(Happen(b, es[0], root), es[1..], root);
    }
  }

  /**
   A shot finds whoever stands still.  Let player `p` have fired in a tick that leaves both
   players alive, at an enemy `q` then at distance `d`, more than 1e-6 and at most 71.  If `q`
   stays where it is for `n` ticks with d <= 5 + 3 n, then by then the battle has ended or `q`
   has been hurt.
   */
  lemma StandingTargetIsHit(b: Battle, o: Orders, es: seq<Event>, root: Root, id: nat, p: nat, q: nat, d: real)
    requires IsRoot(root) && DuelOk(b, p, q) && !b.ended && OrdersFit(b, o, root) && p != 0 && q != 0
    requires
      var b1 := Ticked(b, o, root);
      && id in b1.sim.bullets && b.sim.nextId <= id && b1.sim.bullets[id].owner == p
      && BothAlive(b1.sim.players, p, q) && !b1.ended && ValidRun(b1, es, root)
      && Sq(d) == Sq(b1.sim.players[q].x - b1.sim.players[p].x) + Sq(b1.sim.players[q].y - b1.sim.players[p].y)
      && StandsStill(b1, es, root, q, b1.sim.players[q].x, b1.sim.players[q].y)
    requires 0.000001 < d <= 71.0 && TickCount(es) >= 1 && d <= 5.0 + 3.0 * TickCount(es) as real
    ensures
      var b1 := Ticked(b, o, root);
      var b2 := Play(b1, es, root);
      q in b2.sim.players && (b2.ended || b2.sim.players[q].hp < b1.sim.players[q].hp)
  {
    hide IsRoot, OrdersFit, DuelOk, Ticked, Stepped, ValidRun, Play, StandsStill, DuelStep, OnCourse, Sq, Lists,
      TickCount;
    var b1 := Ticked(b, o, root);
    TickDuelOk(b, o, root, p, q);
    TickedSim(b, o, root);
    NotSame(b, p, q);
    var r := Stepped(b, o, root);
    var px, py := r.players[p].x, r.players[p].y;
    var tx, ty := r.players[q].x - px, r.players[q].y - py;
    AliveNow(b, o, root, p, q);
    FreshIsOnCourse(b.sim, r, root, id, p, q, d);
    InsideOf(b1, p, q, p);
    InsideOf(b1, p, q, q);
    assert px + tx == r.players[q].x && py + ty == r.players[q].y;
    ComingHits(b1, es, root, id, p, q, px, py, tx, ty, d, 0);
  }

  /** Whoever is alive after a tick was alive when the shots were fired. */
  lemma AliveNow(b: Battle, o: Orders, root: Root, p: nat, q: nat)
    requires DuelOk(b, p, q) && OrdersFit(b, o, root)
    ensures q in Stepped(b, o, root).players && q in Prepare(b.sim.players, TICK_MS, root)
    ensures Stepped(b, o, root).players[q].hp <= Prepare(b.sim.players, TICK_MS, root)[q].hp
  {
    hide Step, Lists, Prepare, OwnersAre, HpOk, NoRepeat, Visible;
    assert q in b.sim.players.Keys;
    StepFacts(b.sim, TICK_MS, o.players, o.bullets, root);
    PrepareFacts(b.sim.players, TICK_MS, root);
  }

  lemma FreshIsOnCourse(s: Sim, r: Sim, root: Root, id: nat, p: nat, q: nat, d: real)
    requires IsRoot(root) && DuelStep(s, r, p, q, TICK_MS, root) && p != q && p in r.players && q in r.players
    requires id in r.bullets && s.nextId <= id && r.bullets[id].owner == p && r.players[q].hp > 0
    requires q in Prepare(s.players, TICK_MS, root)
    requires r.players[q].hp <= Prepare(s.players, TICK_MS, root)[q].hp
    requires d > 0.000001 && Sq(d) == Sq(r.players[q].x - r.players[p].x) + Sq(r.players[q].y - r.players[p].y)
    ensures OnCourse(r.bullets[id], r.players[p].x, r.players[p].y,
                     r.players[q].x - r.players[p].x, r.players[q].y - r.players[p].y, d, 0)
  {
    var now := Prepare(s.players, TICK_MS, root);
    hide Prepare, OldBullets, IsRoot, Fires, ShotAt, Sq, Times, SameWay;
    assert IsShot(r.bullets[id], now, p, q, root);
    assert now[p].x == r.players[p].x && now[q].x == r.players[q].x;
    assert now[p].y == r.players[p].y && now[q].y == r.players[q].y;
    ShotGoesTowards(now, p, q, root, d);
    TimesTwo(r.players[q].x - r.players[p].x);
    TimesTwo(r.players[q].y - r.players[p].y);
    assert 2.0 + 3.0 * 0 as real == 2.0;
  }

  lemma TimesTwo(t: real)
    ensures Times(t, 2.0) == 2.0 * t
  {
  }
}
