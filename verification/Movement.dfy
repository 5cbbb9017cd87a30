/** The server does not trust the client's input: nobody leaves the arena or moves faster
    than allowed, and shots go to the nearest enemy. */
module Movement {
  import opened Prelude
  import opened SimModel
  import opened SimFacts
  import opened Collision
  import opened Replication

  function Sq(a: real): real {
    a * a
  }

  lemma Squares(a: real, b: real)
    requires -b <= a <= b
    ensures Sq(a) <= Sq(b)
  {
    NonNegativeProduct(b - a, b + a);
    assert (b - a) * (b + a) == b * b - a * a;
  }

  lemma SquarePositive(a: real)
    ensures Sq(a) >= 0.0 && Sq(-a) == Sq(a)
  {
    Square(a);
    assert (-a) * (-a) == a * a;
  }

  function Times(a: real, b: real): real {
    a * b
  }

  lemma SquareOfProduct(a: real, k: real)
    ensures Sq(Times(a, k)) == Times(Sq(a), Sq(k))
  {
    assert (a * k) * (a * k) == (a * a) * (k * k);
  }

  lemma Distributes(a: real, b: real, k: real)
    ensures Times(a + b, k) == Times(a, k) + Times(b, k)
  {
  }

  lemma Divides(x: real, len: real)
    requires len > 0.0
    ensures Times(x / len, len) == x
  {
  }

  lemma Cancels(s: real, len: real)
    requires len > 0.0 && Times(s, Sq(len)) == Sq(len)
    ensures s == 1.0
  {
    assert (s - 1.0) * len * len == s * (len * len) - len * len == 0.0;
    var t := (s - 1.0) * len;
    assert t * len == 0.0;
    assert t == t * len / len == 0.0;
    assert s - 1.0 == t / len == 0.0;
  }

  /** Dividing a vector by its length gives a unit vector. */
  lemma Normalised(x: real, y: real, len: real)
    requires len > 0.0 && Sq(x) + Sq(y) == Sq(len)
    ensures Sq(x / len) + Sq(y / len) == 1.0
  {
    hide Sq, Times;
    var u, v := x / len, y / len;
    Divides(x, len);
    Divides(y, len);
    SquareOfProduct(u, len);
    SquareOfProduct(v, len);
    Distributes(Sq(u), Sq(v), Sq(len));
    Cancels(Sq(u) + Sq(v), len);
  }

  lemma ShortVector(x: real, y: real, len: real)
    requires 0.0 <= len <= 1.0 && Sq(x) + Sq(y) == Sq(len)
    ensures Sq(x) + Sq(y) <= 1.0
  {
    Squares(len, 1.0);
  }

  lemma NormIs(x: real, y: real, root: Root)
    requires IsRoot(root)
    ensures Norm(x, y, root) >= 0.0 && Sq(Norm(x, y, root)) == Sq(x) + Sq(y)
  {
    SquarePositive(x);
    SquarePositive(y);
  }

  /** However long the input vector, the direction taken from it is at most a unit vector. */
  lemma DirectionAtMostUnit(i: Input, root: Root)
    requires IsRoot(root)
    ensures Sq(Direction(i, root).0) + Sq(Direction(i, root).1) <= 1.0
  {
    NormIs(i.mx, i.my, root);
    hide IsRoot, Sq, Norm;
    var len := Norm(i.mx, i.my, root);
    if len > 1.0 {
      Normalised(i.mx, i.my, len);
    } else {
      ShortVector(i.mx, i.my, len);
    }
  }

  predicate Inside(p: Player) {
    0.0 <= p.x <= ARENA && 0.0 <= p.y <= ARENA
  }

  function GoneSq(p: Player, q: Player): real {
    Sq(q.x - p.x) + Sq(q.y - p.y)
  }

  /** Clamping to an interval one is in never lengthens a step. */
  lemma ClampShortens(x: real, d: real)
    requires 0.0 <= x <= ARENA
    ensures 0.0 <= Clamp(x + d, 0.0, ARENA) <= ARENA
    ensures Sq(Clamp(x + d, 0.0, ARENA) - x) <= Sq(d)
  {
    hide Sq;
    SquarePositive(d);
    Squares(Clamp(x + d, 0.0, ARENA) - x, if d >= 0.0 then d else -d);
  }

  lemma StrideIs(m: real, dt: real)
    ensures Stride(m, dt) == Times(m, SPEED * dt)
  {
  }

  lemma TimesNonNegative(a: real, b: real)
    requires a >= 0.0 && b >= 0.0
    ensures Times(a, b) >= 0.0
  {
    NonNegativeProduct(a, b);
  }

  lemma OneTimes(k: real)
    ensures Times(1.0, k) == k
  {
  }

  lemma StridesAreShort(mx: real, my: real, dt: real)
    requires Sq(mx) + Sq(my) <= 1.0
    ensures Sq(Stride(mx, dt)) + Sq(Stride(my, dt)) <= Sq(SPEED * dt)
  {
    hide Sq, Times, Stride;
    var m, k := Sq(mx) + Sq(my), SPEED * dt;
    StrideIs(mx, dt);
    StrideIs(my, dt);
    SquareOfProduct(mx, k);
    SquareOfProduct(my, k);
    Distributes(Sq(mx), Sq(my), Sq(k));
    SquarePositive(k);
    TimesNonNegative(1.0 - m, Sq(k));
    Distributes(1.0 - m, m, Sq(k));
    OneTimes(Sq(k));
    assert 1.0 - m + m == 1.0;
  }

  lemma StepIsShort(x: real, y: real, dx: real, dy: real, limit: real)
    requires 0.0 <= x <= ARENA && 0.0 <= y <= ARENA && Sq(dx) + Sq(dy) <= limit
    ensures Sq(Clamp(x + dx, 0.0, ARENA) - x) + Sq(Clamp(y + dy, 0.0, ARENA) - y) <= limit
    ensures 0.0 <= Clamp(x + dx, 0.0, ARENA) <= ARENA && 0.0 <= Clamp(y + dy, 0.0, ARENA) <= ARENA
  {
    hide Sq;
    ClampShortens(x, dx);
    ClampShortens(y, dy);
  }

  lemma StandingStill(p: Player, limit: real)
    requires limit >= 0.0
    ensures GoneSq(p, p) <= limit
  {
  }

  /** In one step a player inside the arena stays inside and goes at most speed times time,
      whatever input the client sent. */
  lemma MoveIsBounded(p: Player, dt: real, root: Root)
    requires IsRoot(root) && Inside(p)
    ensures Inside(Move(p, dt, root)) && GoneSq(p, Move(p, dt, root)) <= Sq(SPEED * dt)
  {
    hide Clamp, Sq, IsRoot, Direction, Stride, Norm;
    SquarePositive(SPEED * dt);
    StandingStill(p, Sq(SPEED * dt));
    if p.input.Some? {
      DirectionAtMostUnit(p.input.value, root);
      var d := Direction(p.input.value, root);
      StridesAreShort(d.0, d.1, dt);
      StepIsShort(p.x, p.y, Stride(d.0, dt), Stride(d.1, dt), Sq(SPEED * dt));
    }
  }

  // ---------------------------------------------------------------- whole battles

  ghost predicate AllInside(s: Sim) {
    (forall id | id in s.players :: Inside(s.players[id])) && IdsBelow(s.bullets, s.nextId)
  }

  /** Where a step leaves a player: where its move led. */
  lemma PlaceAfterStep(s: Sim, order: seq<nat>, bulletOrder: seq<nat>, root: Root, id: nat)
    requires IdsBelow(s.bullets, s.nextId) && Lists(order, s.players.Keys) && Lists(bulletOrder, s.bullets.Keys)
    requires id in s.players
    ensures
      var p, q := Move(s.players[id], TICK_MS as real / 1000.0, root),
        Step(s, TICK_MS, order, bulletOrder, root).0.players[id];
      p.x == q.x && p.y == q.y
  {
    hide Step, Lists, Move;
    PositionAfterStep(s, TICK_MS, order, bulletOrder, root, id);
  }

  lemma GoneByPlace(p: Player, q: Player, r: Player)
    requires q.x == r.x && q.y == r.y && Inside(q) && GoneSq(p, q) <= 1.0
    ensures Inside(r) && GoneSq(p, r) <= 1.0
  {
    hide Sq;
  }

  lemma StepInside(s: Sim, order: seq<nat>, bulletOrder: seq<nat>, root: Root)
    requires IsRoot(root) && AllInside(s) && Lists(order, s.players.Keys) && Lists(bulletOrder, s.bullets.Keys)
    ensures AllInside(Step(s, TICK_MS, order, bulletOrder, root).0)
    ensures forall id | id in s.players ::
      GoneSq(s.players[id], Step(s, TICK_MS, order, bulletOrder, root).0.players[id]) <= 1.0
  {
    assert Sq(SPEED * (TICK_MS as real / 1000.0)) == 1.0;
    hide Step, IsRoot, Lists, Move, Sq, IdsBelow, GoneSq, Inside, NoRepeat, Visible;
    StepFacts(s, TICK_MS, order, bulletOrder, root);
    var r := Step(s, TICK_MS, order, bulletOrder, root).0;
    forall id | id in s.players ensures Inside(r.players[id]) && GoneSq(s.players[id], r.players[id]) <= 1.0 {
      PlaceAfterStep(s, order, bulletOrder, root, id);
      MoveIsBounded(s.players[id], TICK_MS as real / 1000.0, root);
      GoneByPlace(s.players[id], Move(s.players[id], TICK_MS as real / 1000.0, root), r.players[id]);
    }
  }

  lemma EventInside(b: Battle, e: Event, root: Root)
    requires IsRoot(root) && AllInside(b.sim) && Possible(b, e, root)
    ensures AllInside(Happen(b, e, root).sim)
  {
    if !b.ended && e.Tick? {
      hide Step, IsRoot, Lists;
      StepInside(b.sim, e.orders.players, e.orders.bullets, root);
    }
  }

  lemma {:induction false} RunInside(b: Battle, es: seq<Event>, root: Root)
    requires IsRoot(root) && AllInside(b.sim) && ValidRun(b, es, root)
    ensures AllInside(Play(b, es, root).sim)
    decreases |es|
  {
    if es != [] {
      hide AllInside, Happen, Possible, IsRoot;
      EventInside(b, es[0], root);
      RunInside(Happen(b, es[0], root), es[1..], root);
    }
  }

  /** Over every battle, whatever the inputs, nobody is ever outside the arena. */
  lemma NobodyLeavesTheArena(a: nat, b: nat, es: seq<Event>, root: Root, id: nat)
    requires IsRoot(root) && ValidRun(NewBattle(a, b), es, root) && id in Play(NewBattle(a, b), es, root).sim.players
    ensures Inside(Play(NewBattle(a, b), es, root).sim.players[id])
  {
    assert AllInside(NewBattle(a, b).sim);
    hide ValidRun, Play, IsRoot;
    RunInside(NewBattle(a, b), es, root);
  }

  // ---------------------------------------------------------------- aiming

  predicate Enemy(players: map<nat, Player>, id: nat, o: nat) {
    o in players && o != id && players[o].Alive()
  }

  lemma {:induction false} NearestFold(players: map<nat, Player>, order: seq<nat>, id: nat, root: Root,
                                       best: Option<nat>)
    requires id in players && (forall o | o in order :: o in players) && (best.Some? ==> Enemy(players, id, best.value))
    ensures
      var r := Nearest(players, order, id, root, best);
      && (r.None? <==> best.None? && forall o | o in order :: !Enemy(players, id, o))
      && (r.Some? ==> Enemy(players, id, r.value) && (r == best || r.value in order))
      && (r.Some? ==> forall o | o in order && Enemy(players, id, o) ::
            Distance(players[id], players[r.value], root) <= Distance(players[id], players[o], root))
      && (r.Some? && best.Some? ==>
        Distance(players[id], players[r.value], root) <= Distance(players[id], players[best.value], root))
    decreases |order|
  {
    if order != [] {
      hide Distance;
      var o := order[0];
      assert forall x | x in order :: x == o || x in order[1..];
      var better := o != id && players[o].Alive() &&
        (best.None? || Distance(players[id], players[o], root) < Distance(players[id], players[best.value], root));
      NearestFold(players, order[1..], id, root, if better then Some(o) else best);
    }
  }

  /** The target is a live enemy, no other live enemy is nearer, and there is a target
      exactly when there is a live enemy. */
  lemma TargetIsNearestEnemy(players: map<nat, Player>, order: seq<nat>, id: nat, root: Root)
    requires id in players && Lists(order, players.Keys)
    ensures
      var r := Nearest(players, order, id, root, None);
      && (r.Some? <==> exists o :: Enemy(players, id, o))
      && (r.Some? ==> Enemy(players, id, r.value)
                      && forall o | Enemy(players, id, o) ::
                           Distance(players[id], players[r.value], root) <= Distance(players[id], players[o], root))
  {
    hide Distance, Nearest;
    NearestFold(players, order, id, root, None);
  }
}
