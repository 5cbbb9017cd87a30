/**
 The battle simulation as a value: one step moves the players, cools weapons down, fires
 and then advances the bullets that existed before the step.

 Coordinates are reals.  The square root is a parameter, constrained only to be the
 non-negative square root.  Hash maps are iterated in an unspecified order, so the orders
 of players and bullets are parameters too.
 */
module SimModel {
  import opened Prelude

  const ARENA: real := 100.0
  const SPEED: real := 20.0
  const DAMAGE: int := 25
  const ATTACK_CD: real := 500.0
  const MAX_HP: int := 100
  const BULLET_SPEED: real := 60.0
  const RADIUS: real := 3.0
  const RANGE: real := 65.0
  const EPS: real := 0.000001

  type Root = real -> real

  ghost predicate IsRoot(root: Root) {
    forall x {:trigger root(x)} :: x >= 0.0 ==> root(x) >= 0.0 && root(x) * root(x) == x
  }

  datatype Input = Input(mx: real, my: real, attack: bool, number: nat)

  datatype Player = Player(
    x: real, y: real, hp: int, inputSeq: nat, cd: real, fx: real, fy: real, input: Option<Input>)
  {
    predicate Alive() { hp > 0 }
  }

  datatype Bullet = Bullet(owner: nat, x: real, y: real, vx: real, vy: real, traveled: real)

  datatype Sim = Sim(players: map<nat, Player>, bullets: map<nat, Bullet>, removed: seq<nat>, nextId: nat)

  const Empty: Sim := Sim(map[], map[], [], 1)

  function AddPlayer(s: Sim, id: nat, x: real, y: real): Sim {
    s.(players := s.players[id := Player(x, y, MAX_HP, 0, 0.0, if x <= ARENA * 0.5 then 1.0 else -1.0, 0.0, None)])
  }

  function ApplyInput(s: Sim, id: nat, i: Input): Sim {
    if id !in s.players then s
    else s.(players := s.players[id := s.players[id].(input := Some(i), inputSeq := i.number)])
  }

  function Clamp(v: real, lo: real, hi: real): real {
    if v < lo then lo else if hi < v then hi else v
  }

  function MaxReal(a: real, b: real): real {
    if a < b then b else a
  }

  // ---------------------------------------------------------------- movement and cooldown

  function Norm(x: real, y: real, root: Root): real {
    root(x * x + y * y)
  }

  /** How far full speed scaled by `m` leads in time `dt`. */
  function Stride(m: real, dt: real): real {
    m * SPEED * dt
  }

  /** A direction longer than one is cut to the unit circle. */
  function Direction(i: Input, root: Root): (real, real) {
    var len := Norm(i.mx, i.my, root);
    if len > 1.0 then (i.mx / len, i.my / len) else (i.mx, i.my)
  }

  function Move(p: Player, dt: real, root: Root): Player {
    if !p.Alive() || p.input.None? then p
    else
      var i := p.input.value;
      if Norm(i.mx, i.my, root) < EPS then p
      else
        var (mx, my) := Direction(i, root);
        p.(fx := mx, fy := my,
           x := Clamp(p.x + Stride(mx, dt), 0.0, ARENA),
           y := Clamp(p.y + Stride(my, dt), 0.0, ARENA))
  }

  function Cool(p: Player, dtMs: nat): Player {
    p.(cd := MaxReal(0.0, p.cd - dtMs as real))
  }

  function Prepare(players: map<nat, Player>, dtMs: nat, root: Root): map<nat, Player> {
    map id | id in players :: Cool(Move(players[id], dtMs as real / 1000.0, root), dtMs)
  }

  // ---------------------------------------------------------------- firing

  predicate Fires(p: Player) {
    p.Alive() && p.input.Some? && p.input.value.attack && !(p.cd > 0.0)
  }

  function Distance(p: Player, q: Player, root: Root): real {
    root((q.x - p.x) * (q.x - p.x) + (q.y - p.y) * (q.y - p.y))
  }

  /** The nearest live player other than `id`, the first in `order` among equals. */
  function Nearest(players: map<nat, Player>, order: seq<nat>, id: nat, root: Root, best: Option<nat>): (r: Option<nat>)
    requires id in players && (forall o | o in order :: o in players) && (best.Some? ==> best.value in players)
    ensures r.Some? ==> r.value in players
    decreases |order|
  {
    if order == [] then best
    else
      var o := order[0];
      var better := o != id && players[o].Alive() &&
        (best.None? || Distance(players[id], players[o], root) < Distance(players[id], players[best.value], root));
      Nearest(players, order[1..], id, root, if better then Some(o) else best)
  }

  /** The direction of (dx, dy), scaled to length one unless it is next to nothing. */
  function Toward(dx: real, dy: real, root: Root): (real, real) {
    var len := Norm(dx, dy, root);
    if len > EPS then (dx / len, dy / len) else (dx, dy)
  }

  function Aim(players: map<nat, Player>, order: seq<nat>, id: nat, root: Root): (real, real)
    requires id in players && (forall o | o in order :: o in players)
  {
    var p := players[id];
    var target := Nearest(players, order, id, root, None);
    match target
    case None => (p.fx, p.fy)
    case Some(o) =>
      Toward(players[o].x - p.x, players[o].y - p.y, root)
  }

  function NewBullet(p: Player, id: nat, d: (real, real)): Bullet {
    Bullet(id, p.x + d.0 * 2.0, p.y + d.1 * 2.0, d.0 * BULLET_SPEED, d.1 * BULLET_SPEED, 0.0)
  }

  function FireOne(s: Sim, order: seq<nat>, id: nat, root: Root): (r: Sim)
    requires (forall o | o in order :: o in s.players) && id in s.players
    ensures r.players.Keys == s.players.Keys && s.nextId <= r.nextId && r.removed == s.removed
  {
    var p := s.players[id];
    if !Fires(p) then s
    else
      s.(bullets := s.bullets[s.nextId := NewBullet(p, id, Aim(s.players, order, id, root))],
         nextId := s.nextId + 1,
         players := s.players[id := p.(cd := ATTACK_CD)])
  }

  /** Players in turn, `todo` still to come. */
  function FireAll(s: Sim, order: seq<nat>, todo: seq<nat>, root: Root): (r: Sim)
    requires (forall o | o in order :: o in s.players) && (forall o | o in todo :: o in s.players)
    ensures r.players.Keys == s.players.Keys && s.nextId <= r.nextId && r.removed == s.removed
    decreases |todo|
  {
    if todo == [] then s else FireAll(FireOne(s, order, todo[0], root), order, todo[1..], root)
  }

  // ---------------------------------------------------------------- bullets in flight

  /** The vector a bullet travels in one step. */
  function Segment(b: Bullet, dt: real): (real, real) {
    ((b.x + b.vx * dt) - b.x, (b.y + b.vy * dt) - b.y)
  }

  function SegLenSq(b: Bullet, dt: real): real {
    var (sx, sy) := Segment(b, dt);
    sx * sx + sy * sy
  }

  /** Inner product of the segment with the way from the bullet to (x, y). */
  function Dot(b: Bullet, x: real, y: real, dt: real): real {
    var (sx, sy) := Segment(b, dt);
    (x - b.x) * sx + (y - b.y) * sy
  }

  function Project(dot: real, lenSq: real): real {
    if lenSq > EPS then Clamp(dot / lenSq, 0.0, 1.0) else 0.0
  }

  /** Where on the segment, as a fraction of it, the bullet is closest to (x, y). */
  function Fraction(b: Bullet, x: real, y: real, dt: real): real {
    Project(Dot(b, x, y, dt), SegLenSq(b, dt))
  }

  /** Squared distance between (x, y) and the point at fraction `t` of the segment. */
  function DistSq(b: Bullet, x: real, y: real, dt: real, t: real): real {
    var (sx, sy) := Segment(b, dt);
    var (dx, dy) := (x - (b.x + sx * t), y - (b.y + sy * t));
    dx * dx + dy * dy
  }

  predicate Near(b: Bullet, x: real, y: real, dt: real) {
    DistSq(b, x, y, dt, Fraction(b, x, y, dt)) <= RADIUS * RADIUS
  }

  function Param(b: Bullet, p: Player, dt: real): real {
    Fraction(b, p.x, p.y, dt)
  }

  predicate InRange(b: Bullet, p: Player, dt: real) {
    Near(b, p.x, p.y, dt)
  }

  predicate Target(players: map<nat, Player>, b: Bullet, id: nat, dt: real) {
    id in players && id != b.owner && players[id].Alive() && InRange(b, players[id], dt)
  }

  /** The first target met on the way, the first in `order` among equals. */
  function Victim(players: map<nat, Player>, order: seq<nat>, b: Bullet, dt: real, best: Option<nat>): (r: Option<nat>)
    requires (forall o | o in order :: o in players) && (best.Some? ==> best.value in players)
    ensures r.Some? ==> r.value in players
    decreases |order|
  {
    if order == [] then best
    else
      var o := order[0];
      var better := Target(players, b, o, dt) &&
        (best.None? || Param(b, players[o], dt) < Param(b, players[best.value], dt));
      Victim(players, order[1..], b, dt, if better then Some(o) else best)
  }

  /** `hits` records who was hit by which bullet, `changed` who changed visibly. */
  datatype Flight = Flight(
    players: map<nat, Player>, bullets: map<nat, Bullet>, removed: seq<nat>, changed: set<nat>, hits: seq<(nat, nat)>)

  function Hurt(p: Player): Player {
    p.(hp := if p.hp - DAMAGE > 0 then p.hp - DAMAGE else 0)
  }

  function Fly(b: Bullet, dt: real, root: Root): Bullet {
    b.(x := b.x + b.vx * dt, y := b.y + b.vy * dt, traveled := b.traveled + root(SegLenSq(b, dt)))
  }

  predicate Spent(b: Bullet) {
    b.traveled >= RANGE || b.x < 0.0 || b.x > ARENA || b.y < 0.0 || b.y > ARENA
  }

  function Advance(f: Flight, order: seq<nat>, id: nat, dt: real, root: Root): (r: Flight)
    requires forall o | o in order :: o in f.players
    ensures r.players.Keys == f.players.Keys
  {
    if id !in f.bullets then f
    else
      var b := f.bullets[id];
      match Victim(f.players, order, b, dt, None)
      case Some(v) =>
        f.(players := f.players[v := Hurt(f.players[v])], changed := f.changed + {v},
           bullets := f.bullets - {id}, removed := f.removed + [id], hits := f.hits + [(id, v)])
      case None =>
        var b' := Fly(b, dt, root);
        if Spent(b') then f.(bullets := f.bullets - {id}, removed := f.removed + [id])
        else f.(bullets := f.bullets[id := b'])
  }

  function AdvanceAll(f: Flight, order: seq<nat>, todo: seq<nat>, dt: real, root: Root): (r: Flight)
    requires forall o | o in order :: o in f.players
    ensures r.players.Keys == f.players.Keys
    decreases |todo|
  {
    if todo == [] then f else AdvanceAll(Advance(f, order, todo[0], dt, root), order, todo[1..], dt, root)
  }

  // ---------------------------------------------------------------- a step

  predicate Lists(order: seq<nat>, keys: set<nat>) {
    && (forall i, j | 0 <= i < j < |order| :: order[i] != order[j])
    && (forall k | k in order :: k in keys)
    && (forall k | k in keys :: k in order)
  }

  function Moved(before: map<nat, Player>, after: map<nat, Player>): set<nat> {
    set id | id in before && id in after && (after[id].x != before[id].x || after[id].y != before[id].y)
  }

  /** Everything before bullets fly. */
  function BeforeFlight(s: Sim, dtMs: nat, order: seq<nat>, root: Root): (r: Sim)
    requires Lists(order, s.players.Keys)
    ensures r.players.Keys == s.players.Keys && s.nextId <= r.nextId && r.removed == []
  {
    FireAll(s.(players := Prepare(s.players, dtMs, root), removed := []), order, order, root)
  }

  function Flown(s: Sim, dtMs: nat, order: seq<nat>, bulletOrder: seq<nat>, root: Root): (r: Flight)
    requires Lists(order, s.players.Keys) && Lists(bulletOrder, s.bullets.Keys)
    ensures r.players.Keys == s.players.Keys
  {
    var s1 := BeforeFlight(s, dtMs, order, root);
    AdvanceAll(Flight(s1.players, s1.bullets, [], Moved(s.players, s1.players), []), order, bulletOrder,
      dtMs as real / 1000.0, root)
  }

  /** The new state and the players reported as changed. */
  function Step(s: Sim, dtMs: nat, order: seq<nat>, bulletOrder: seq<nat>, root: Root): (r: (Sim, set<nat>))
    requires Lists(order, s.players.Keys) && Lists(bulletOrder, s.bullets.Keys)
    ensures r.0.players.Keys == s.players.Keys
  {
    var f := Flown(s, dtMs, order, bulletOrder, root);
    (Sim(f.players, f.bullets, f.removed, BeforeFlight(s, dtMs, order, root).nextId), f.changed)
  }

  function TakeRemoved(s: Sim): (Sim, seq<nat>) {
    (s.(removed := []), s.removed)
  }

  function AliveIds(players: map<nat, Player>): set<nat> {
    set id | id in players && players[id].Alive()
  }

  /** The only player left alive, 0 if there is not exactly one. */
  ghost function Winner(s: Sim): (w: nat)
    ensures w != 0 ==> AliveIds(s.players) == {w}
  {
    if exists w: nat :: AliveIds(s.players) == {w} then
      var w: nat :| AliveIds(s.players) == {w}; w
    else 0
  }
}
