/**
 The life of bullets over whole battles: every bullet ever fired is accounted for, health
 is conserved, shots of one player lie ten ticks apart, and each player has at most three
 bullets in the air.
 */
module BulletRuns {
  import opened Prelude
  import opened SimModel
  import opened SimFacts
  import opened Collision
  import opened Movement
  import opened Duel
  import opened DuelRuns
  import opened Replication

  // ---------------------------------------------------------------- full speed

  /** Fired with a direction of length one. */
  predicate Unit(b: Bullet) {
    b.vx * b.vx + b.vy * b.vy == BULLET_SPEED * BULLET_SPEED
  }

  lemma Scaled(vx: real, vy: real, k: real)
    ensures (vx * k) * (vx * k) + (vy * k) * (vy * k) == (vx * vx + vy * vy) * (k * k)
  {
    assert (vx * k) * (vx * k) == (vx * vx) * (k * k);
    assert (vy * k) * (vy * k) == (vy * vy) * (k * k);
  }

  /** A shot in a direction of length one is a full-speed bullet. */
  lemma UnitDirection(p: Player, id: nat, u: real, v: real)
    requires Sq(u) + Sq(v) == 1.0
    ensures Unit(NewBullet(p, id, (u, v)))
  {
    Scaled(u, v, BULLET_SPEED);
  }

  /** Fired at somebody on practically the same spot: next to it, and hardly moving. */
  predicate Close(b: Bullet, q: Player) {
    && Sq(b.x - q.x) + Sq(b.y - q.y) <= Sq(EPS)
    && Sq(b.vx) + Sq(b.vy) <= Times(Sq(EPS), Sq(BULLET_SPEED))
  }

  lemma TinyShotIsClose(p: Player, id: nat, dx: real, dy: real, q: Player)
    requires Sq(dx) + Sq(dy) <= Sq(EPS) && dx == q.x - p.x && dy == q.y - p.y
    ensures Close(NewBullet(p, id, (dx, dy)), q)
  {
    var b := NewBullet(p, id, (dx, dy));
    assert b.x - q.x == dx && b.y - q.y == dy;
    assert b.vx == Times(dx, BULLET_SPEED) && b.vy == Times(dy, BULLET_SPEED);
    hide Sq, Times, NewBullet;
    SquareOfProduct(dx, BULLET_SPEED);
    SquareOfProduct(dy, BULLET_SPEED);
    Distributes(Sq(dx), Sq(dy), Sq(BULLET_SPEED));
    TimesMonotone(Sq(dx) + Sq(dy), Sq(EPS), Sq(BULLET_SPEED));
  }

  lemma TimesMonotone(a: real, b: real, k: real)
    requires a <= b && k >= 0.0
    ensures Times(a, k) <= Times(b, k)
  {
    NonNegativeProduct(b - a, k);
    assert (b - a) * k == b * k - a * k;
  }

  /** What is fired at a live opponent: a full-speed bullet, or one fired at somebody on
      practically the same spot. */
  lemma ShotIsUnitOrClose(now: map<nat, Player>, p: nat, v: nat, root: Root)
    requires IsRoot(root) && p in now && v in now && now[v].Alive()
    ensures ShotAt(now, p, v, root).owner == p && ShotAt(now, p, v, root).traveled == 0.0
    ensures Unit(ShotAt(now, p, v, root)) || Close(ShotAt(now, p, v, root), now[v])
  {
    var dx, dy := now[v].x - now[p].x, now[v].y - now[p].y;
    NormIs(dx, dy, root);
    hide IsRoot, Norm, Unit, Close, Sq;
    var len := Norm(dx, dy, root);
    if len > EPS {
      Normalised(dx, dy, len);
      UnitDirection(now[p], p, dx / len, dy / len);
    } else {
      TinyVector(dx, dy, len);
      TinyShotIsClose(now[p], p, dx, dy, now[v]);
    }
  }

  lemma TinyVector(dx: real, dy: real, len: real)
    requires 0.0 <= len <= EPS && Sq(len) == Sq(dx) + Sq(dy)
    ensures Sq(dx) + Sq(dy) <= Sq(EPS)
  {
    hide Sq;
    Squares(len, EPS);
  }

  lemma TwoSteps(a: real, b: real)
    ensures Sq(a + b) <= 2.0 * Sq(a) + 2.0 * Sq(b)
  {
    Square(a - b);
    assert (a - b) * (a - b) == a * a - 2.0 * (a * b) + b * b;
    assert (a + b) * (a + b) == a * a + 2.0 * (a * b) + b * b;
  }

  /** A bullet that hardly moves is tested where it starts. */
  lemma SlowFraction(b: Bullet, x: real, y: real, dt: real)
    requires SegLenSq(b, dt) <= EPS
    ensures Fraction(b, x, y, dt) == 0.0 && DistSq(b, x, y, dt, 0.0) == Sq(x - b.x) + Sq(y - b.y)
  {
    hide SegLenSq, Dot;
    var (sx, sy) := Segment(b, dt);
    assert sx * 0.0 == 0.0 && sy * 0.0 == 0.0;
  }

  lemma SlowSegment(b: Bullet)
    requires Sq(b.vx) + Sq(b.vy) <= Times(Sq(EPS), Sq(BULLET_SPEED))
    ensures SegLenSq(b, TICK_MS as real / 1000.0) <= EPS
  {
    var dt := TICK_MS as real / 1000.0;
    assert dt == 0.05;
    var (sx, sy) := Segment(b, dt);
    assert sx == b.vx * 0.05 && sy == b.vy * 0.05;
    Scaled(b.vx, b.vy, 0.05);
    assert Times(Sq(EPS), Sq(BULLET_SPEED)) == 0.0000000036;
  }

  /** Such a bullet hits at the next tick: the other cannot get out of its reach in time. */
  lemma CloseHits(b: Bullet, q: Player, q': Player)
    requires Close(b, q) && GoneSq(q, q') <= 1.0
    ensures InRange(b, q', TICK_MS as real / 1000.0)
  {
    var dt := TICK_MS as real / 1000.0;
    assert Sq(EPS) <= 1.0 && RADIUS * RADIUS == 9.0;
    hide Sq, Times, SegLenSq, Fraction, DistSq;
    SlowSegment(b);
    SlowFraction(b, q'.x, q'.y, dt);
    TwoSteps(q'.x - q.x, q.x - b.x);
    TwoSteps(q'.y - q.y, q.y - b.y);
    SquarePositive(b.x - q.x);
    SquarePositive(b.y - q.y);
    assert (q'.x - q.x) + (q.x - b.x) == q'.x - b.x && (q'.y - q.y) + (q.y - b.y) == q'.y - b.y;
    assert -(b.x - q.x) == q.x - b.x && -(b.y - q.y) == q.y - b.y;
  }

  lemma UnitSegment(b: Bullet)
    requires Unit(b)
    ensures SegLenSq(b, TICK_MS as real / 1000.0) == 9.0
  {
    var dt := TICK_MS as real / 1000.0;
    assert dt == 0.05;
    var (sx, sy) := Segment(b, dt);
    assert sx == b.vx * 0.05 && sy == b.vy * 0.05;
    Scaled(b.vx, b.vy, 0.05);
  }

  lemma RootOfNine(root: Root)
    requires IsRoot(root)
    ensures root(9.0) == 3.0
  {
    var r := root(9.0);
    assert r >= 0.0 && r * r == 9.0;
    assert (r - 3.0) * (r + 3.0) == r * r - 9.0;
    ZeroFactor(r - 3.0, r + 3.0);
  }

  lemma ZeroFactor(a: real, b: real)
    requires a * b == 0.0 && b > 0.0
    ensures a == 0.0
  {
  }

  /** At 50 ms a full-speed bullet advances by exactly 3. */
  lemma UnitFly(b: Bullet, root: Root)
    requires IsRoot(root) && Unit(b)
    ensures
      var b' := Fly(b, TICK_MS as real / 1000.0, root);
      Unit(b') && b'.traveled == b.traveled + 3.0
  {
    hide SegLenSq;
    UnitSegment(b);
    RootOfNine(root);
  }

  // ---------------------------------------------------------------- chronicle of a battle

  /** A battle with its past: when each bullet was fired and by whom, the tombstones sent so
      far with their tick, when each player last fired, and how many bullets hit somebody. */
  datatype Chronicle = Chronicle(
    b: Battle, births: map<nat, nat>, owners: map<nat, nat>, tombs: seq<(nat, nat)>, lastShot: map<nat, nat>, hits: nat)

  function NewIds(s: Sim, r: Sim): set<nat> {
    set id | id in r.bullets && s.nextId <= id
  }

  function Shooters(s: Sim, r: Sim): set<nat> {
    set id | id in NewIds(s, r) :: r.bullets[id].owner
  }

  function Stamped(ids: seq<nat>, tick: nat): seq<(nat, nat)> {
    seq(|ids|, i requires 0 <= i < |ids| => (ids[i], tick))
  }

  ghost function Record(c: Chronicle, o: Orders, root: Root): Chronicle
    requires OrdersFit(c.b, o, root)
  {
    var s, r, t := c.b.sim, Stepped(c.b, o, root), c.b.tick + 1;
    Chronicle(
      Ticked(c.b, o, root),
      c.births + (map id | id in NewIds(s, r) :: t),
      c.owners + (map id | id in NewIds(s, r) :: r.bullets[id].owner),
      c.tombs + Stamped(r.removed, t),
      c.lastShot + (map p | p in Shooters(s, r) :: t),
      c.hits + |Flown(s, TICK_MS, o.players, o.bullets, root).hits|)
  }

  ghost function Chronicled(c: Chronicle, e: Event, root: Root): Chronicle
    requires Possible(c.b, e, root)
  {
    if c.b.ended then c
    else match e
      case GotInput(_, _) => c.(b := Happen(c.b, e, root))
      case Tick(o) => Record(c, o, root)
  }

  ghost predicate ValidChronicle(c: Chronicle, es: seq<Event>, root: Root)
    decreases |es|
  {
    es == [] || (Possible(c.b, es[0], root) && ValidChronicle(Chronicled(c, es[0], root), es[1..], root))
  }

  ghost function Tell(c: Chronicle, es: seq<Event>, root: Root): Chronicle
    requires ValidChronicle(c, es, root)
    decreases |es|
  {
    if es == [] then c else Tell(Chronicled(c, es[0], root), es[1..], root)
  }

  function Begin(a: nat, b: nat): Chronicle {
    Chronicle(NewBattle(a, b), map[], map[], [], map[], 0)
  }

  // ---------------------------------------------------------------- the ledger

  predicate Buried(tombs: seq<(nat, nat)>, id: nat) {
    exists i | 0 <= i < |tombs| :: tombs[i].0 == id
  }

  /** Every id ever issued is live or has exactly one tombstone, never both. */
  ghost predicate LedgerOk(c: Chronicle) {
    var s := c.b.sim;
    && 1 <= s.nextId && IdsBelow(s.bullets, s.nextId) && 0 !in s.bullets
    && (forall id | 1 <= id < s.nextId :: id in s.bullets <==> !Buried(c.tombs, id))
    && (forall i | 0 <= i < |c.tombs| :: 1 <= c.tombs[i].0 < s.nextId && 1 <= c.tombs[i].1 <= c.b.tick)
    && (forall i, j | 0 <= i < j < |c.tombs| :: c.tombs[i].0 != c.tombs[j].0)
  }

  lemma BuriedConcat(a: seq<(nat, nat)>, ids: seq<nat>, tick: nat, id: nat)
    ensures Buried(a + Stamped(ids, tick), id) <==> Buried(a, id) || id in ids
  {
    var b := a + Stamped(ids, tick);
    if Buried(a, id) {
      var i :| 0 <= i < |a| && a[i].0 == id;
      assert b[i].0 == id;
    }
    if id in ids {
      var i :| 0 <= i < |ids| && ids[i] == id;
      assert b[|a| + i].0 == id;
    }
    if Buried(b, id) {
      var i :| 0 <= i < |b| && b[i].0 == id;
      assert if i < |a| then b[i] == a[i] else b[i].0 == ids[i - |a|];
    }
  }

  lemma TombsDistinct(a: seq<(nat, nat)>, ids: seq<nat>, tick: nat)
    requires (forall i, j | 0 <= i < j < |a| :: a[i].0 != a[j].0) && NoRepeat(ids)
    requires forall id | id in ids :: !Buried(a, id)
    ensures var b := a + Stamped(ids, tick); forall i, j | 0 <= i < j < |b| :: b[i].0 != b[j].0
  {
    var b := a + Stamped(ids, tick);
    forall i, j | 0 <= i < j < |b| ensures b[i].0 != b[j].0 {
      if i < |a| <= j {
        assert ids[j - |a|] in ids;
        assert a[i].0 == b[i].0;
      }
    }
  }

  lemma RecordLedger(c: Chronicle, o: Orders, root: Root)
    requires OrdersFit(c.b, o, root) && LedgerOk(c)
    ensures LedgerOk(Record(c, o, root))
  {
    hide Step, Flown, Lists, Winner, Buried, Stamped, NoRepeat;
    var s, r, t := c.b.sim, Stepped(c.b, o, root), c.b.tick + 1;
    StepFacts(s, TICK_MS, o.players, o.bullets, root);
    var tombs := c.tombs + Stamped(r.removed, t);
    forall id | 1 <= id < r.nextId ensures id in r.bullets <==> !Buried(tombs, id) {
      BuriedConcat(c.tombs, r.removed, t, id);
      if s.nextId <= id {
        NotBuried(c.tombs, s.nextId, id);
      }
    }
    forall id | id in r.removed ensures !Buried(c.tombs, id) {
    }
    TombsDistinct(c.tombs, r.removed, t);
    TombsInRange(c.tombs, r.removed, t, s.nextId, c.b.tick);
  }

  lemma NotBuried(tombs: seq<(nat, nat)>, n: nat, id: nat)
    requires (forall i | 0 <= i < |tombs| :: 1 <= tombs[i].0 < n) && n <= id
    ensures !Buried(tombs, id)
  {
  }

  lemma TombsInRange(tombs: seq<(nat, nat)>, ids: seq<nat>, t: nat, n: nat, tick: nat)
    requires (forall i | 0 <= i < |tombs| :: 1 <= tombs[i].0 < n && 1 <= tombs[i].1 <= tick) && t == tick + 1
    requires forall id | id in ids :: 1 <= id < n
    ensures var b := tombs + Stamped(ids, t); forall i | 0 <= i < |b| :: 1 <= b[i].0 < n && 1 <= b[i].1 <= t
  {
    var b := tombs + Stamped(ids, t);
    forall i | 0 <= i < |b| ensures 1 <= b[i].0 < n && 1 <= b[i].1 <= t {
      if i >= |tombs| {
        assert ids[i - |tombs|] in ids;
      } else {
        assert b[i] == tombs[i];
      }
    }
  }

  // ---------------------------------------------------------------- conservation of health

  function Elems(s: seq<nat>): set<nat> {
    set x | x in s
  }

  lemma {:induction false} ListSize(s: seq<nat>)
    requires NoRepeat(s)
    ensures |Elems(s)| == |s|
    decreases |s|
  {
    if s != [] {
      Tail(s);
      hide NoRepeat;
      ListSize(s[1..]);
      assert s[0] !in Elems(s[1..]);
      assert Elems(s) == Elems(s[1..]) + {s[0]};
    }
  }

  lemma TwoListed(order: seq<nat>, a: nat, b: nat)
    requires a != b && Lists(order, {a, b})
    ensures order == [a, b] || order == [b, a]
  {
    ListSize(order);
    assert Elems(order) == {a, b};
    assert |order| == 2;
    assert order[0] in order && order[1] in order;
  }

  lemma TotalOfTwo(players: map<nat, Player>, order: seq<nat>, a: nat, b: nat)
    requires a != b && players.Keys == {a, b} && Lists(order, {a, b})
    ensures TotalHp(players, order) == players[a].hp + players[b].hp
  {
    TwoListed(order, a, b);
    TotalOfPair(players, order[0], order[1]);
    assert order == [order[0], order[1]];
  }

  lemma TotalOfPair(players: map<nat, Player>, x: nat, y: nat)
    requires x in players && y in players
    ensures TotalHp(players, [x, y]) == players[x].hp + players[y].hp
  {
    assert [x, y][1..] == [y];
    assert [y][1..] == [];
    assert TotalHp(players, [y]) == players[y].hp;
  }

  /** Health lost by both players together is 25 for every bullet that hit. */
  ghost predicate HealthOk(c: Chronicle, a: nat, b: nat) {
    var s := c.b.sim;
    && a != b && s.players.Keys == {a, b} && IdsBelow(s.bullets, s.nextId) && HpOk(s.players)
    && s.players[a].hp + s.players[b].hp + DAMAGE * c.hits == 2 * MAX_HP
  }

  lemma RecordHealth(c: Chronicle, o: Orders, root: Root, a: nat, b: nat)
    requires OrdersFit(c.b, o, root) && HealthOk(c, a, b)
    ensures HealthOk(Record(c, o, root), a, b)
  {
    hide BeforeFlight, AdvanceAll, Lists, Winner, TotalHp, HpOk;
    var s, r := c.b.sim, Stepped(c.b, o, root);
    StepFacts(s, TICK_MS, o.players, o.bullets, root);
    StepHealth(s, TICK_MS, o.players, o.bullets, root);
    TotalOfTwo(s.players, o.players, a, b);
    TotalOfTwo(r.players, o.players, a, b);
  }

  // ---------------------------------------------------------------- ten ticks apart

  /** Every id ever issued has a birth and an owner, not after the owner's last shot. */
  ghost predicate BirthsKnown(c: Chronicle) {
    && c.owners.Keys == c.births.Keys
    && (forall id :: id in c.births <==> 1 <= id < c.b.sim.nextId)
    && (forall id | id in c.births :: BornBy(c, id))
    && (forall id | id in c.b.sim.bullets ::
      id in c.births && id in c.owners && c.owners[id] == c.b.sim.bullets[id].owner)
  }

  ghost predicate BornBy(c: Chronicle, id: nat) {
    && id in c.births && id in c.owners && c.births[id] <= c.b.tick
    && c.owners[id] in c.lastShot && c.births[id] <= c.lastShot[c.owners[id]]
  }

  /** Two shots of one player lie at least ten ticks apart. */
  ghost predicate TenApart(c: Chronicle, i: nat, j: nat) {
    i in c.births && j in c.births && i in c.owners && j in c.owners
    && (c.owners[i] == c.owners[j] && c.births[i] <= c.births[j] ==> c.births[i] + 10 <= c.births[j])
  }

  ghost predicate BirthsApart(c: Chronicle) {
    forall i, j | i in c.births && j in c.births && i != j :: TenApart(c, i, j)
  }

  /** A weapon cools by at most 50 per tick since its last shot. */
  ghost predicate WeaponsHot(c: Chronicle) {
    forall p | p in c.lastShot :: Hot(c, p)
  }

  ghost predicate Hot(c: Chronicle, p: nat) {
    && p in c.lastShot && p in c.b.sim.players && c.lastShot[p] <= c.b.tick
    && c.b.sim.players[p].cd >= ATTACK_CD - 50.0 * (c.b.tick - c.lastShot[p]) as real
  }

  /** A full-speed bullet has travelled 3 per tick since its birth, and is not spent. */
  ghost predicate FullSpeed(c: Chronicle) {
    forall id | id in c.b.sim.bullets && Unit(c.b.sim.bullets[id]) :: Paced(c, id)
  }

  ghost predicate Paced(c: Chronicle, id: nat) {
    && id in c.b.sim.bullets && id in c.births && c.births[id] <= c.b.tick
    && c.b.sim.bullets[id].traveled == 3.0 * (c.b.tick - c.births[id]) as real
    && c.b.sim.bullets[id].traveled < RANGE
  }

  ghost predicate BirthsOk(c: Chronicle) {
    BirthsKnown(c) && BirthsApart(c) && WeaponsHot(c) && FullSpeed(c)
  }

  /** One tick of 50 ms, seen from a bullet that was already there. */
  ghost predicate FlewOn(s: Sim, r: Sim, id: nat) {
    && id in s.bullets && id in r.bullets && r.bullets[id].owner == s.bullets[id].owner
    && (Unit(r.bullets[id]) <==> Unit(s.bullets[id]))
    && (Unit(r.bullets[id]) ==> r.bullets[id].traveled == s.bullets[id].traveled + 3.0)
    && r.bullets[id].traveled < RANGE
  }

  /** And from one that was fired in it. */
  ghost predicate WasFired(s: Sim, r: Sim, id: nat) {
    && id in r.bullets && r.bullets[id].traveled == 0.0
    && r.bullets[id].owner in s.players && r.bullets[id].owner in r.players
    && s.players[r.bullets[id].owner].cd <= 50.0 && r.players[r.bullets[id].owner].cd == ATTACK_CD
  }

  lemma SameSpeed(b: Bullet, root: Root)
    ensures Unit(Fly(b, TICK_MS as real / 1000.0, root)) == Unit(b)
  {
    hide SegLenSq;
  }

  lemma FlewOnFact(s: Sim, r: Sim, a: nat, b: nat, root: Root, id: nat)
    requires IsRoot(root) && DuelStep(s, r, a, b, TICK_MS, root) && id in r.bullets && id < s.nextId
    ensures FlewOn(s, r, id)
  {
    hide Unit, IsRoot, SegLenSq, PlayersAfter, NewBullets, FliesOn, Prepare, IdsBelow;
    assert OldBullet(s.bullets[id], id, r.bullets, Prepare(s.players, TICK_MS, root), r.players, a, b,
      TICK_MS as real / 1000.0, root);
    SameSpeed(s.bullets[id], root);
    if Unit(s.bullets[id]) {
      UnitFly(s.bullets[id], root);
    }
  }

  lemma PreparedCooldown(players: map<nat, Player>, root: Root, p: nat)
    requires p in players
    ensures p in Prepare(players, TICK_MS, root)
    ensures Prepare(players, TICK_MS, root)[p].cd == MaxReal(0.0, players[p].cd - 50.0)
    ensures Prepare(players, TICK_MS, root)[p].hp == players[p].hp
  {
    hide Direction, Clamp;
  }

  lemma WasFiredFact(s: Sim, r: Sim, a: nat, b: nat, root: Root, id: nat)
    requires DuelStep(s, r, a, b, TICK_MS, root) && id in r.bullets && s.nextId <= id
    ensures WasFired(s, r, id)
  {
    hide OldBullets, Prepare, Toward, IdsBelow;
    PrepareFacts(s.players, TICK_MS, root);
    var now := Prepare(s.players, TICK_MS, root);
    assert IsShot(r.bullets[id], now, a, b, root);
    var p := r.bullets[id].owner;
    assert p in now.Keys;
    PreparedCooldown(s.players, root, p);
  }

  lemma HeldFire(s: Sim, r: Sim, a: nat, b: nat, root: Root, p: nat)
    requires DuelStep(s, r, a, b, TICK_MS, root) && p in s.players && p !in Shooters(s, r)
    ensures p in r.players && r.players[p].cd == MaxReal(0.0, s.players[p].cd - 50.0)
  {
    hide OldBullets, Prepare, Fires, IsShot, IdsBelow;
    PrepareFacts(s.players, TICK_MS, root);
    PreparedCooldown(s.players, root, p);
    NewShoots(s, r, p);
    assert Fires(Prepare(s.players, TICK_MS, root)[p]) ==> HasNew(r.bullets, s.nextId, p);
  }

  lemma NewShoots(s: Sim, r: Sim, p: nat)
    ensures HasNew(r.bullets, s.nextId, p) ==> p in Shooters(s, r)
  {
    if HasNew(r.bullets, s.nextId, p) {
      var id :| id in r.bullets && s.nextId <= id && r.bullets[id].owner == p;
      assert id in NewIds(s, r);
    }
  }

  /** What is written into the chronicle over one tick from `s` to `r`. */
  ghost predicate Written(c: Chronicle, c': Chronicle, s: Sim, r: Sim) {
    && s == c.b.sim && c'.b.sim == r.(removed := []) && c'.b.tick == c.b.tick + 1
    && c'.births == c.births + (map id | id in NewIds(s, r) :: c.b.tick + 1)
    && c'.owners == c.owners + (map id | id in NewIds(s, r) :: r.bullets[id].owner)
    && c'.lastShot == c.lastShot + (map p | p in Shooters(s, r) :: c.b.tick + 1)
  }

  /** The new ids are exactly the ones issued in between. */
  ghost predicate NewRange(s: Sim, r: Sim) {
    1 <= s.nextId <= r.nextId && forall id :: id in NewIds(s, r) <==> s.nextId <= id < r.nextId
  }

  ghost predicate EachBullet(s: Sim, r: Sim) {
    forall id | id in r.bullets :: id < r.nextId && if id < s.nextId then FlewOn(s, r, id) else WasFired(s, r, id)
  }

  ghost predicate OneShotEach(s: Sim, r: Sim) {
    forall i, j | i in NewIds(s, r) && j in NewIds(s, r) && i != j :: r.bullets[i].owner != r.bullets[j].owner
  }

  ghost predicate OthersCool(s: Sim, r: Sim) {
    && r.players.Keys == s.players.Keys
    && (forall p | p in s.players && p !in Shooters(s, r) :: r.players[p].cd == MaxReal(0.0, s.players[p].cd - 50.0))
  }

  /** How the chronicle moves on over one tick. */
  ghost predicate TickOf(c: Chronicle, c': Chronicle, s: Sim, r: Sim) {
    Written(c, c', s, r) && NewRange(s, r) && EachBullet(s, r) && OneShotEach(s, r) && OthersCool(s, r)
  }

  lemma WrittenFor(c: Chronicle, c': Chronicle, s: Sim, r: Sim, id: nat)
    requires Written(c, c', s, r)
    ensures id in NewIds(s, r) ==>
      && id in r.bullets && s.nextId <= id
      && id in c'.births && c'.births[id] == c.b.tick + 1 && id in c'.owners && c'.owners[id] == r.bullets[id].owner
      && r.bullets[id].owner in c'.lastShot && c'.lastShot[r.bullets[id].owner] == c.b.tick + 1
    ensures id !in NewIds(s, r) ==>
      && (id in c'.births <==> id in c.births) && (id in c.births ==> c'.births[id] == c.births[id])
      && (id in c'.owners <==> id in c.owners) && (id in c.owners ==> c'.owners[id] == c.owners[id])
  {
    if id in NewIds(s, r) {
      assert r.bullets[id].owner in Shooters(s, r);
    }
  }

  lemma LastShotFor(c: Chronicle, c': Chronicle, s: Sim, r: Sim, p: nat)
    requires Written(c, c', s, r)
    ensures p in c'.lastShot <==> p in c.lastShot || p in Shooters(s, r)
    ensures p in Shooters(s, r) ==> c'.lastShot[p] == c.b.tick + 1
    ensures p !in Shooters(s, r) && p in c.lastShot ==> c'.lastShot[p] == c.lastShot[p]
  {
    hide NewIds, Shooters;
  }

  lemma BirthsAfter(c: Chronicle, c': Chronicle, s: Sim, r: Sim)
    requires BirthsOk(c) && TickOf(c, c', s, r)
    ensures BirthsOk(c')
  {
    hide BirthsKnown, BirthsApart, WeaponsHot, FullSpeed, TickOf;
    KnownAfter(c, c', s, r);
    ApartAfter(c, c', s, r);
    HotAfter(c, c', s, r);
    SpeedAfter(c, c', s, r);
  }

  /** Birth and owner of any id after the tick. */
  lemma BirthOf(c: Chronicle, c': Chronicle, s: Sim, r: Sim, id: nat)
    requires BirthsKnown(c) && Written(c, c', s, r) && NewRange(s, r) && 1 <= id < r.nextId
    ensures BornBy(c', id)
    ensures id < s.nextId ==> BornBy(c, id) && c'.births[id] == c.births[id] && c'.owners[id] == c.owners[id]
    ensures s.nextId <= id ==>
      id in NewIds(s, r) && id in r.bullets && c'.births[id] == c.b.tick + 1 && c'.owners[id] == r.bullets[id].owner
  {
    WrittenFor(c, c', s, r, id);
    TickIs(c, c', s, r);
    if id < s.nextId {
      assert id !in NewIds(s, r);
      assert BornBy(c, id);
      LastShotFor(c, c', s, r, c.owners[id]);
    }
    hide Written;
  }

  lemma TickIs(c: Chronicle, c': Chronicle, s: Sim, r: Sim)
    requires Written(c, c', s, r)
    ensures s == c.b.sim && c'.b.sim == r.(removed := []) && c'.b.tick == c.b.tick + 1
  {
  }

  lemma KnownAfter(c: Chronicle, c': Chronicle, s: Sim, r: Sim)
    requires BirthsKnown(c) && TickOf(c, c', s, r)
    ensures BirthsKnown(c')
  {
    hide Written, EachBullet, OneShotEach, OthersCool, NewIds, BornBy;
    TickIs(c, c', s, r);
    forall id: nat
      ensures id in c'.births <==> 1 <= id < r.nextId
      ensures id in c'.owners <==> id in c'.births
    {
      WrittenFor(c, c', s, r, id);
    }
    assert c'.owners.Keys == c'.births.Keys;
    forall id | id in c'.births ensures BornBy(c', id) {
      BirthOf(c, c', s, r, id);
    }
    forall id | id in r.bullets ensures id in c'.births && id in c'.owners && c'.owners[id] == r.bullets[id].owner {
      OwnerAfter(c, c', s, r, id);
    }
  }

  lemma OwnerAfter(c: Chronicle, c': Chronicle, s: Sim, r: Sim, id: nat)
    requires BirthsKnown(c) && Written(c, c', s, r) && NewRange(s, r) && EachBullet(s, r) && id in r.bullets
    ensures 1 <= id < r.nextId && id in c'.births && id in c'.owners && c'.owners[id] == r.bullets[id].owner
  {
    hide Unit, WasFired, Written, NewIds;
    TickIs(c, c', s, r);
    if id < s.nextId {
      assert FlewOn(s, r, id);
      assert id in s.bullets && id in c.births;
    }
    BirthOf(c, c', s, r, id);
    BornMeans(c', id);
  }

  lemma BornMeans(c: Chronicle, id: nat)
    requires BornBy(c, id)
    ensures id in c.births && id in c.owners && c.births[id] <= c.b.tick
  {
  }

  lemma ReadyAfterTen(c: Chronicle, i: nat, p: nat)
    requires BornBy(c, i) && WeaponsHot(c) && c.owners[i] == p
    requires p in c.b.sim.players && c.b.sim.players[p].cd <= 50.0
    ensures c.births[i] + 10 <= c.b.tick + 1
  {
    assert Hot(c, p);
    var d := c.b.tick - c.lastShot[p];
    assert 50.0 >= 500.0 - 50.0 * d as real;
  }

  lemma PairApart(c: Chronicle, c': Chronicle, s: Sim, r: Sim, i: nat, j: nat)
    requires BirthsKnown(c) && BirthsApart(c) && WeaponsHot(c) && TickOf(c, c', s, r)
    requires 1 <= i < r.nextId && 1 <= j < r.nextId && i != j
    ensures TenApart(c', i, j)
  {
    hide Unit, FlewOn, Shooters, WeaponsHot, NewIds, Written, OthersCool;
    TickIs(c, c', s, r);
    BirthOf(c, c', s, r, i);
    BirthOf(c, c', s, r, j);
    if i < s.nextId && j < s.nextId {
      assert TenApart(c, i, j);
    } else if i < s.nextId && c'.owners[i] == c'.owners[j] {
      assert WasFired(s, r, j);
      ReadyAfterTen(c, i, c.owners[i]);
    }
  }

  lemma ApartAfter(c: Chronicle, c': Chronicle, s: Sim, r: Sim)
    requires BirthsKnown(c) && BirthsApart(c) && WeaponsHot(c) && TickOf(c, c', s, r) && BirthsKnown(c')
    ensures BirthsApart(c')
  {
    hide WeaponsHot, BirthsApart, TenApart, BornBy, EachBullet, OneShotEach, OthersCool, NewRange;
    TickIs(c, c', s, r);
    hide Written;
    forall i, j | i in c'.births && j in c'.births && i != j ensures TenApart(c', i, j) {
      PairApart(c, c', s, r, i, j);
    }
    ApartIs(c');
  }

  lemma ApartIs(c: Chronicle)
    requires forall i, j | i in c.births && j in c.births && i != j :: TenApart(c, i, j)
    ensures BirthsApart(c)
  {
  }

  lemma HotAfter(c: Chronicle, c': Chronicle, s: Sim, r: Sim)
    requires WeaponsHot(c) && TickOf(c, c', s, r)
    ensures WeaponsHot(c')
  {
    hide Unit, FlewOn, Written, NewRange, OneShotEach;
    TickIs(c, c', s, r);
    forall p | p in c'.lastShot ensures Hot(c', p) {
      LastShotFor(c, c', s, r, p);
      if p in Shooters(s, r) {
        var id :| id in NewIds(s, r) && r.bullets[id].owner == p;
        assert WasFired(s, r, id);
      } else {
        assert Hot(c, p) && p in s.players.Keys;
        assert (c'.b.tick - c'.lastShot[p]) as real == (c.b.tick - c.lastShot[p]) as real + 1.0;
      }
    }
  }

  lemma SpeedAfter(c: Chronicle, c': Chronicle, s: Sim, r: Sim)
    requires BirthsKnown(c) && FullSpeed(c) && TickOf(c, c', s, r)
    ensures FullSpeed(c')
  {
    hide Unit, Shooters, Written, OneShotEach, OthersCool, NewIds, BirthsKnown, BornBy;
    TickIs(c, c', s, r);
    forall id | id in r.bullets && Unit(r.bullets[id]) ensures Paced(c', id) {
      OwnerAfter(c, c', s, r, id);
      BirthOf(c, c', s, r, id);
      BornMeans(c', id);
      if id < s.nextId {
        assert FlewOn(s, r, id) && Paced(c, id);
        assert (c'.b.tick - c'.births[id]) as real == (c.b.tick - c.births[id]) as real + 1.0;
      }
    }
  }

  lemma RecordWrites(c: Chronicle, o: Orders, root: Root)
    requires OrdersFit(c.b, o, root)
    ensures Written(c, Record(c, o, root), c.b.sim, Stepped(c.b, o, root))
  {
    hide Step, Flown, Lists, Winner;
  }

  lemma IdsOfStep(b: Battle, o: Orders, root: Root)
    requires OrdersFit(b, o, root) && IdsBelow(b.sim.bullets, b.sim.nextId) && 1 <= b.sim.nextId
    ensures NewRange(b.sim, Stepped(b, o, root)) && IdsBelow(Stepped(b, o, root).bullets, Stepped(b, o, root).nextId)
    ensures Stepped(b, o, root).players.Keys == b.sim.players.Keys
  {
    hide Step, Lists, NoRepeat, Visible;
    StepFacts(b.sim, TICK_MS, o.players, o.bullets, root);
  }

  lemma EachOfStep(s: Sim, r: Sim, a: nat, b: nat, root: Root)
    requires IsRoot(root) && DuelStep(s, r, a, b, TICK_MS, root) && IdsBelow(r.bullets, r.nextId)
    requires r.players.Keys == s.players.Keys
    ensures EachBullet(s, r) && OneShotEach(s, r) && OthersCool(s, r)
  {
    hide IsRoot, FlewOn, WasFired, DuelStep;
    forall id | id in r.bullets ensures if id < s.nextId then FlewOn(s, r, id) else WasFired(s, r, id) {
      if id < s.nextId {
        FlewOnFact(s, r, a, b, root, id);
      } else {
        WasFiredFact(s, r, a, b, root, id);
      }
    }
    forall i, j | i in NewIds(s, r) && j in NewIds(s, r) && i != j ensures r.bullets[i].owner != r.bullets[j].owner {
      FiredByDifferent(s, r, a, b, root, i, j);
    }
    forall p | p in s.players && p !in Shooters(s, r) ensures r.players[p].cd == MaxReal(0.0, s.players[p].cd - 50.0) {
      HeldFire(s, r, a, b, root, p);
    }
  }

  lemma RecordTick(c: Chronicle, o: Orders, root: Root, a: nat, b: nat)
    requires IsRoot(root) && OrdersFit(c.b, o, root) && DuelOk(c.b, a, b) && LedgerOk(c)
    ensures TickOf(c, Record(c, o, root), c.b.sim, Stepped(c.b, o, root))
    ensures DuelOk(Record(c, o, root).b, a, b) && DuelStep(c.b.sim, Stepped(c.b, o, root), a, b, TICK_MS, root)
  {
    LedgerIds(c);
    assert Record(c, o, root).b == Ticked(c.b, o, root);
    hide Record, Written, NewRange, EachBullet, OneShotEach, OthersCool, LedgerOk, DuelOk, DuelStep, OrdersFit, Ticked,
      Stepped, IsRoot;
    OrdersLists(c.b, o, root);
    TickDuelOk(c.b, o, root, a, b);
    RecordWrites(c, o, root);
    IdsOfStep(c.b, o, root);
    EachOfStep(c.b.sim, Stepped(c.b, o, root), a, b, root);
  }

  lemma OrdersLists(b: Battle, o: Orders, root: Root)
    requires OrdersFit(b, o, root)
    ensures Lists(o.players, b.sim.players.Keys) && Lists(o.bullets, b.sim.bullets.Keys)
  {
    hide Step, Lists;
  }

  lemma LedgerIds(c: Chronicle)
    requires LedgerOk(c)
    ensures IdsBelow(c.b.sim.bullets, c.b.sim.nextId) && 1 <= c.b.sim.nextId
  {
  }

  lemma FiredByDifferent(s: Sim, r: Sim, a: nat, b: nat, root: Root, i: nat, j: nat)
    requires DuelStep(s, r, a, b, TICK_MS, root) && i in NewIds(s, r) && j in NewIds(s, r) && i != j
    ensures r.bullets[i].owner != r.bullets[j].owner
  {
    hide PlayersAfter, OldBullets, IdsBelow, Prepare;
    NewDiffer(r.bullets, s.nextId, Prepare(s.players, TICK_MS, root), a, b, root, i, j);
  }

  // ---------------------------------------------------------------- at most three in the air

  function Owned(c: Chronicle, p: nat): set<nat> {
    set id | id in c.b.sim.bullets && c.b.sim.bullets[id].owner == p
  }

  /** While both live, a bullet is a full-speed one, or has just been fired at close range. */
  ghost predicate Aimed(c: Chronicle, a: nat, b: nat) {
    BothAlive(c.b.sim.players, a, b) ==> forall id | id in c.b.sim.bullets :: AimedOne(c, a, b, id)
  }

  ghost predicate AimedOne(c: Chronicle, a: nat, b: nat, id: nat) {
    && id in c.b.sim.bullets && id in c.births
    && var bl := c.b.sim.bullets[id];
       Unit(bl) || (c.births[id] == c.b.tick && Other(a, b, bl.owner) in c.b.sim.players
                    && Close(bl, c.b.sim.players[Other(a, b, bl.owner)]))
  }

  /** None of these bullets is older than 21 ticks. */
  ghost predicate Young(c: Chronicle, ids: set<nat>) {
    forall id | id in ids :: id in c.births && 0 <= c.b.tick - c.births[id] <= 21
  }

  ghost predicate Few(c: Chronicle) {
    forall p :: |Owned(c, p)| <= 3
  }

  function AgeBand(c: Chronicle, ids: set<nat>, k: nat): set<nat> {
    set id | id in ids && id in c.births && (c.b.tick - c.births[id]) / 10 == k
  }

  lemma BandsApart(c: Chronicle, p: nat, ids: set<nat>, x: nat, y: nat)
    requires BirthsKnown(c) && BirthsApart(c) && ids <= Owned(c, p) && Young(c, ids) && x in ids && y in ids && x != y
    ensures x in c.births && y in c.births
    ensures (c.b.tick - c.births[x]) / 10 != (c.b.tick - c.births[y]) / 10
  {
    assert TenApart(c, x, y) && TenApart(c, y, x);
  }

  lemma BandAtMostOne(c: Chronicle, p: nat, ids: set<nat>, k: nat)
    requires BirthsKnown(c) && BirthsApart(c) && ids <= Owned(c, p) && Young(c, ids)
    ensures |AgeBand(c, ids, k)| <= 1
  {
    var band := AgeBand(c, ids, k);
    if band != {} {
      var x :| x in band;
      hide BirthsKnown, BirthsApart;
      forall y | y in ids && y != x ensures y !in band {
        BandsApart(c, p, ids, x, y);
      }
      assert band == {x};
    }
  }

  lemma YoungAreFew(c: Chronicle, p: nat, ids: set<nat>)
    requires BirthsKnown(c) && BirthsApart(c) && ids <= Owned(c, p) && Young(c, ids)
    ensures |ids| <= 3
  {
    BandAtMostOne(c, p, ids, 0);
    BandAtMostOne(c, p, ids, 1);
    BandAtMostOne(c, p, ids, 2);
    ThreeBands(c, ids);
    hide BirthsKnown, BirthsApart, AgeBand, Owned;
    UnionSize(AgeBand(c, ids, 0), AgeBand(c, ids, 1));
    UnionSize(AgeBand(c, ids, 0) + AgeBand(c, ids, 1), AgeBand(c, ids, 2));
  }

  lemma ThreeBands(c: Chronicle, ids: set<nat>)
    requires Young(c, ids)
    ensures ids == AgeBand(c, ids, 0) + AgeBand(c, ids, 1) + AgeBand(c, ids, 2)
  {
    forall id | id in ids ensures id in AgeBand(c, ids, 0) + AgeBand(c, ids, 1) + AgeBand(c, ids, 2) {
      var k := (c.b.tick - c.births[id]) / 10;
      assert k == 0 || k == 1 || k == 2;
    }
  }

  lemma PacedIsYoung(c: Chronicle, id: nat)
    requires Paced(c, id)
    ensures 0 <= c.b.tick - c.births[id] <= 21
  {
    var age := c.b.tick - c.births[id];
    assert 3.0 * age as real < 65.0;
  }

  /** The full-speed bullets of a player. */
  function Flying(c: Chronicle, p: nat): set<nat> {
    set id | id in Owned(c, p) && Unit(c.b.sim.bullets[id])
  }

  lemma FlyingIsOwned(c: Chronicle, p: nat)
    ensures Flying(c, p) <= Owned(c, p)
  {
  }

  lemma FlyingIsYoung(c: Chronicle, p: nat)
    requires FullSpeed(c)
    ensures Young(c, Flying(c, p))
  {
    hide Unit;
    forall id | id in Flying(c, p) ensures id in c.births && 0 <= c.b.tick - c.births[id] <= 21 {
      assert Paced(c, id);
      PacedIsYoung(c, id);
    }
  }

  lemma UnionSize(x: set<nat>, y: set<nat>)
    ensures |x + y| <= |x| + |y|
  {
    assert x + y == x + (y - x);
    assert |y - x| <= |y| by {
      assert y == (y - x) + (y * x);
    }
  }

  /** From a state in which both live, every bullet is young after the tick. */
  lemma YoungAfter(c: Chronicle, c': Chronicle, s: Sim, r: Sim, a: nat, b: nat, p: nat)
    requires BirthsOk(c) && FullSpeed(c') && TickOf(c, c', s, r) && Aimed(c, a, b) && BothAlive(s.players, a, b)
    ensures Young(c', Owned(c', p))
  {
    hide Unit, Close, Shooters, BirthsApart, WeaponsHot, Written, OneShotEach, OthersCool, NewIds, BirthsKnown;
    TickIs(c, c', s, r);
    forall id | id in Owned(c', p) ensures id in c'.births && 0 <= c'.b.tick - c'.births[id] <= 21 {
      OwnerAfter(c, c', s, r, id);
      BirthOf(c, c', s, r, id);
      if id < s.nextId {
        assert FlewOn(s, r, id) && AimedOne(c, a, b, id);
        if Unit(r.bullets[id]) {
          assert Paced(c', id);
          PacedIsYoung(c', id);
        } else {
          StillSlow(c, a, b, s, r, id);
        }
      }
    }
  }

  lemma StillSlow(c: Chronicle, a: nat, b: nat, s: Sim, r: Sim, id: nat)
    requires FlewOn(s, r, id) && s == c.b.sim && AimedOne(c, a, b, id) && !Unit(r.bullets[id])
    ensures c.births[id] == c.b.tick
  {
  }

  lemma DeadDoNotFire(s: Sim, r: Sim, a: nat, b: nat, root: Root, id: nat)
    requires DuelStep(s, r, a, b, TICK_MS, root) && TwoPlayers(s.players, a, b)
    requires !s.players[a].Alive() && !s.players[b].Alive() && id in r.bullets
    ensures id < s.nextId
  {
    hide OldBullets, PlayersAfter, Prepare, ShotAt;
    var now := Prepare(s.players, TICK_MS, root);
    PrepareFacts(s.players, TICK_MS, root);
    assert forall p | p in now :: p in s.players.Keys && (p == a || p == b) && !Fires(now[p]);
    assert s.nextId <= id ==> IsShot(r.bullets[id], now, a, b, root);
  }

  /** A tick in which nobody fires leaves nobody with more bullets. */
  lemma OnlyFewer(c: Chronicle, c': Chronicle, s: Sim, r: Sim, a: nat, b: nat, root: Root, p: nat)
    requires TickOf(c, c', s, r) && DuelStep(s, r, a, b, TICK_MS, root) && TwoPlayers(s.players, a, b)
    requires !s.players[a].Alive() && !s.players[b].Alive()
    ensures |Owned(c', p)| <= |Owned(c, p)|
  {
    hide Unit, DuelStep, TwoPlayers, Written, NewRange, OneShotEach, OthersCool, WasFired;
    TickIs(c, c', s, r);
    forall id | id in Owned(c', p) ensures id in Owned(c, p) {
      DeadDoNotFire(s, r, a, b, root, id);
      assert FlewOn(s, r, id);
    }
    SubsetSize(Owned(c', p), Owned(c, p));
  }

  lemma SubsetSize(x: set<nat>, y: set<nat>)
    requires x <= y
    ensures |x| <= |y|
  {
    assert y == x + (y - x);
  }

  lemma FewAfter(c: Chronicle, c': Chronicle, s: Sim, r: Sim, a: nat, b: nat, root: Root)
    requires BirthsOk(c) && BirthsOk(c') && TickOf(c, c', s, r) && Aimed(c, a, b) && Few(c)
    requires DuelStep(s, r, a, b, TICK_MS, root) && DuelOk(c.b, a, b) && !c.b.ended && a != 0 && b != 0
    ensures Few(c')
  {
    TickIs(c, c', s, r);
    hide TickOf, DuelStep, Aimed, Owned, BirthsKnown, BirthsApart, WeaponsHot, FullSpeed, Young, OwnersAre, HpOk,
      AllInside;
    forall p ensures |Owned(c', p)| <= 3 {
      if BothAlive(s.players, a, b) {
        YoungAfter(c, c', s, r, a, b, p);
        YoungAreFew(c', p, Owned(c', p));
      } else {
        OnlyFewer(c, c', s, r, a, b, root, p);
      }
    }
  }

  lemma StandBounded(players: map<nat, Player>, root: Root, v: nat)
    requires IsRoot(root) && v in players && Inside(players[v])
    ensures v in Prepare(players, TICK_MS, root) && GoneSq(players[v], Prepare(players, TICK_MS, root)[v]) <= 1.0
  {
    assert Sq(SPEED * (TICK_MS as real / 1000.0)) == 1.0;
    hide Move, Sq, IsRoot;
    MoveIsBounded(players[v], TICK_MS as real / 1000.0, root);
  }

  /** A bullet fired at close range does not outlive the next tick, if its target does. */
  lemma CloseIsGone(s: Sim, r: Sim, a: nat, b: nat, root: Root, id: nat)
    requires IsRoot(root) && DuelStep(s, r, a, b, TICK_MS, root) && id in s.bullets
    requires
      var v := Other(a, b, s.bullets[id].owner);
      v in s.players && v in r.players && Inside(s.players[v]) && r.players[v].Alive()
    ensures Close(s.bullets[id], s.players[Other(a, b, s.bullets[id].owner)]) ==> id !in r.bullets
  {
    hide Close, InRange, Fly, Spent, Prepare, GoneSq, PlayersAfter, NewBullets, IsRoot;
    var v, now := Other(a, b, s.bullets[id].owner), Prepare(s.players, TICK_MS, root);
    assert OldBullet(s.bullets[id], id, r.bullets, now, r.players, a, b, TICK_MS as real / 1000.0, root);
    StandBounded(s.players, root, v);
    if Close(s.bullets[id], s.players[v]) {
      CloseHits(s.bullets[id], s.players[v], now[v]);
    }
  }

  lemma CloseByPlace(bl: Bullet, p: Player, q: Player)
    requires p.x == q.x && p.y == q.y
    ensures Close(bl, p) == Close(bl, q)
  {
    hide Sq, Times;
  }

  lemma NewIsAimed(s: Sim, r: Sim, a: nat, b: nat, root: Root, id: nat)
    requires IsRoot(root) && DuelStep(s, r, a, b, TICK_MS, root) && id in r.bullets && s.nextId <= id
    requires TwoPlayers(s.players, a, b) && BothAlive(s.players, a, b)
    ensures
      var v := Other(a, b, r.bullets[id].owner);
      v in r.players && (Unit(r.bullets[id]) || Close(r.bullets[id], r.players[v]))
  {
    hide Close, Unit, Prepare, OldBullets, IsRoot, Fires, ShotAt;
    var now := Prepare(s.players, TICK_MS, root);
    PrepareFacts(s.players, TICK_MS, root);
    var bl := r.bullets[id];
    assert IsShot(bl, now, a, b, root);
    var v := Other(a, b, bl.owner);
    assert v in now.Keys && (v == a || v == b);
    ShotIsUnitOrClose(now, bl.owner, v, root);
    CloseByPlace(bl, now[v], r.players[v]);
  }

  lemma AimedAfter(c: Chronicle, c': Chronicle, s: Sim, r: Sim, a: nat, b: nat, root: Root)
    requires IsRoot(root) && BirthsKnown(c) && TickOf(c, c', s, r) && Aimed(c, a, b)
    requires DuelStep(s, r, a, b, TICK_MS, root) && DuelOk(c.b, a, b)
    requires BothAlive(r.players, a, b) ==> BothAlive(s.players, a, b)
    ensures Aimed(c', a, b)
  {
    TickIs(c, c', s, r);
    if BothAlive(r.players, a, b) {
      hide DuelStep, Unit, Close, Written, OneShotEach, OthersCool, BirthsKnown, DuelOk, NewIds, IsRoot;
      forall id | id in r.bullets ensures AimedOne(c', a, b, id) {
        OwnerAfter(c, c', s, r, id);
        BirthOf(c, c', s, r, id);
        if id < s.nextId {
          assert FlewOn(s, r, id) && AimedOne(c, a, b, id);
          InsideOf(c.b, a, b, Other(a, b, s.bullets[id].owner));
          CloseIsGone(s, r, a, b, root, id);
        } else {
          TwoOf(c.b, a, b);
          NewIsAimed(s, r, a, b, root, id);
        }
      }
    }
  }

  lemma TwoOf(x: Battle, a: nat, b: nat)
    requires DuelOk(x, a, b)
    ensures TwoPlayers(x.sim.players, a, b)
  {
  }

  lemma InsideOf(x: Battle, a: nat, b: nat, v: nat)
    requires DuelOk(x, a, b) && (v == a || v == b)
    ensures v in x.sim.players && Inside(x.sim.players[v])
  {
    hide OwnersAre, HpOk, IdsBelow;
    assert v in x.sim.players.Keys;
  }

  // ---------------------------------------------------------------- runs

  ghost predicate Good(c: Chronicle, a: nat, b: nat) {
    && LedgerOk(c) && HealthOk(c, a, b) && DuelOk(c.b, a, b)
    && BirthsOk(c) && Aimed(c, a, b) && (a != 0 && b != 0 ==> Few(c))
  }

  lemma BeginGood(a: nat, b: nat)
    requires a != b
    ensures Good(Begin(a, b), a, b)
  {
    var c := Begin(a, b);
    assert c.b.sim.players.Keys == {a, b};
    NewDuelOk(a, b);
    assert forall p :: Owned(c, p) == {};
  }

  lemma RecordGood(c: Chronicle, o: Orders, root: Root, a: nat, b: nat)
    requires IsRoot(root) && OrdersFit(c.b, o, root) && Good(c, a, b) && !c.b.ended
    ensures Good(Record(c, o, root), a, b)
  {
    hide IsRoot, OrdersFit, Record, LedgerOk, HealthOk, DuelOk, BirthsOk, Aimed, Few, TickOf, DuelStep, Stepped;
    var c' := Record(c, o, root);
    RecordLedger(c, o, root);
    RecordHealth(c, o, root, a, b);
    RecordTick(c, o, root, a, b);
    OrdersLists(c.b, o, root);
    var s, r := c.b.sim, Stepped(c.b, o, root);
    BirthsAfter(c, c', s, r);
    if a != 0 && b != 0 {
      FewAfter(c, c', s, r, a, b, root);
    }
    if BothAlive(r.players, a, b) {
      AliveBefore(c.b, o, root, a, b);
    }
    BirthsParts(c);
    AimedAfter(c, c', s, r, a, b, root);
  }

  lemma BirthsParts(c: Chronicle)
    requires BirthsOk(c)
    ensures BirthsKnown(c)
  {
  }

  function WithInput(c: Chronicle, pid: nat, i: Input): Chronicle {
    c.(b := c.b.(sim := ApplyInput(c.b.sim, pid, i)))
  }

  lemma InputLedger(c: Chronicle, pid: nat, i: Input)
    requires LedgerOk(c)
    ensures LedgerOk(WithInput(c, pid, i))
  {
  }

  lemma InputHealth(c: Chronicle, pid: nat, i: Input, a: nat, b: nat)
    requires HealthOk(c, a, b)
    ensures HealthOk(WithInput(c, pid, i), a, b)
  {
  }

  /** An input changes nobody's place, life or cooldown. */
  lemma InputKeeps(s: Sim, pid: nat, i: Input)
    ensures
      var r := ApplyInput(s, pid, i);
      && r.bullets == s.bullets && r.nextId == s.nextId && r.players.Keys == s.players.Keys
      && (forall p | p in s.players ::
        r.players[p] == s.players[p].(input := r.players[p].input, inputSeq := r.players[p].inputSeq))
  {
  }

  lemma InputBirths(c: Chronicle, pid: nat, i: Input)
    requires BirthsOk(c)
    ensures BirthsOk(WithInput(c, pid, i))
  {
    hide Unit, ApplyInput;
    var c' := WithInput(c, pid, i);
    InputKeeps(c.b.sim, pid, i);
    forall id | id in c.births ensures BornBy(c', id) {
      assert BornBy(c, id);
    }
    forall x, y | x in c.births && y in c.births && x != y ensures TenApart(c', x, y) {
      assert TenApart(c, x, y);
    }
    forall p | p in c.lastShot ensures Hot(c', p) {
      assert Hot(c, p) && p in c'.b.sim.players.Keys;
    }
    forall id | id in c.b.sim.bullets && Unit(c.b.sim.bullets[id]) ensures Paced(c', id) {
      assert Paced(c, id);
    }
  }

  lemma InputAimed(c: Chronicle, pid: nat, i: Input, a: nat, b: nat)
    requires Aimed(c, a, b)
    ensures Aimed(WithInput(c, pid, i), a, b) && (Few(c) ==> Few(WithInput(c, pid, i)))
  {
    hide Unit, Close, ApplyInput;
    var c' := WithInput(c, pid, i);
    InputKeeps(c.b.sim, pid, i);
    assert forall p :: Owned(c', p) == Owned(c, p);
    if BothAlive(c'.b.sim.players, a, b) {
      assert a in c.b.sim.players.Keys && b in c.b.sim.players.Keys;
      forall id | id in c'.b.sim.bullets ensures AimedOne(c', a, b, id) {
        assert AimedOne(c, a, b, id);
        var v := Other(a, b, c.b.sim.bullets[id].owner);
        if v in c.b.sim.players {
          assert v in c'.b.sim.players.Keys;
          CloseByPlace(c.b.sim.bullets[id], c.b.sim.players[v], c'.b.sim.players[v]);
        }
      }
    }
  }

  lemma InputGood(c: Chronicle, pid: nat, i: Input, a: nat, b: nat)
    requires Good(c, a, b)
    ensures Good(WithInput(c, pid, i), a, b)
  {
    InputDuelOk(c.b, pid, i, a, b);
    assert WithInput(c, pid, i).b == c.b.(sim := ApplyInput(c.b.sim, pid, i));
    hide LedgerOk, HealthOk, BirthsOk, WithInput, DuelOk, Aimed, Few;
    InputLedger(c, pid, i);
    InputHealth(c, pid, i, a, b);
    InputBirths(c, pid, i);
    InputAimed(c, pid, i, a, b);
  }

  lemma {:induction false} TellGood(c: Chronicle, es: seq<Event>, root: Root, a: nat, b: nat)
    requires IsRoot(root) && Good(c, a, b) && ValidChronicle(c, es, root)
    ensures Good(Tell(c, es, root), a, b)
    decreases |es|
  {
    if es != [] {
      hide IsRoot, Good, Record, OrdersFit;
      if !c.b.ended {
        match es[0] {
          case GotInput(pid, i) => InputGood(c, pid, i, a, b);
          case Tick(o) => RecordGood(c, o, root, a, b);
        }
      }
      TellGood(Chronicled(c, es[0], root), es[1..], root, a, b);
    }
  }

  /**
   Over every run of a battle between two players: every bullet id ever issued is either
   live or named in exactly one tombstone, never both; the health lost by both together
   is 25 for each bullet that hit; any two shots of one player lie at least ten ticks apart;
   no full-speed bullet is older than 21 ticks, so each player has at most three of them in
   the air; and, the players' ids being positive, at most three bullets of any speed.
   */
  lemma EveryBulletAccountedFor(a: nat, b: nat, es: seq<Event>, root: Root, p: nat)
    requires a != b && IsRoot(root) && ValidChronicle(Begin(a, b), es, root)
    ensures
      var c := Tell(Begin(a, b), es, root);
      && (forall id | 1 <= id < c.b.sim.nextId :: id in c.b.sim.bullets <==> !Buried(c.tombs, id))
      && (forall i, j | 0 <= i < j < |c.tombs| :: c.tombs[i].0 != c.tombs[j].0)
      && a in c.b.sim.players && b in c.b.sim.players
      && c.b.sim.players[a].hp + c.b.sim.players[b].hp + DAMAGE * c.hits == 2 * MAX_HP
      && |Flying(c, p)| <= 3 && Young(c, Flying(c, p))
      && (a != 0 && b != 0 ==> |Owned(c, p)| <= 3)
    ensures
      var c := Tell(Begin(a, b), es, root);
      && (forall id :: 1 <= id < c.b.sim.nextId <==> id in c.births)
      && (forall i, j | i in c.births && j in c.births && i != j :: TenApart(c, i, j))
  {
    BeginGood(a, b);
    hide IsRoot, ValidChronicle, Tell, Owned, TenApart, Aimed, DuelOk, WeaponsHot, FullSpeed, Buried, Flying, Young;
    TellGood(Begin(a, b), es, root, a, b);
    var c := Tell(Begin(a, b), es, root);
    FlyingIsYoung(c, p);
    FlyingIsOwned(c, p);
    YoungAreFew(c, p, Flying(c, p));
  }
}
