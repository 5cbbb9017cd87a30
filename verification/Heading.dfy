/**
 Which way a player goes: along its input, and from there to the nearest place in the arena;
 and where the two players of a battle begin.
 */
module Heading {
  import opened Prelude
  import opened SimModel
  import opened SimFacts
  import opened Collision
  import opened Movement
  import opened Replication

  // ---------------------------------------------------------------- moving

  /** How far apart two numbers are. */
  function Gap(a: real, b: real): real {
    if a < b then b - a else a - b
  }

  /** `v` is the point of [0, 100] nearest to `target`. */
  ghost predicate NearestInArena(v: real, target: real) {
    0.0 <= v <= 100.0 && forall z: real :: 0.0 <= z <= 100.0 ==> Gap(v, target) <= Gap(z, target)
  }

  lemma ClampIsNearest(target: real)
    ensures NearestInArena(Clamp(target, 0.0, ARENA), target)
  {
  }

  /** The two vectors point the same way. */
  ghost predicate SameWay(dx: real, dy: real, mx: real, my: real) {
    dx * my == dy * mx && dx * mx + dy * my > 0.0
  }

  function MinReal(a: real, b: real): real {
    if a < b then a else b
  }

  /** A non-negative root is the only one. */
  lemma OnlyRoot(a: real, b: real)
    requires a >= 0.0 && b >= 0.0 && Sq(a) == Sq(b)
    ensures a == b
  {
    if a < b {
      StrictSquares(a, b);
    } else if b < a {
      StrictSquares(b, a);
    }
  }

  lemma StrictSquares(a: real, b: real)
    requires 0.0 <= a < b
    ensures Sq(a) < Sq(b)
  {
    NonNegativeProduct(a, b - a);
    assert b * b == a * a + 2.0 * (a * (b - a)) + (b - a) * (b - a);
    PositiveSquare(b - a);
  }

  lemma PositiveSquare(a: real)
    requires a > 0.0
    ensures a * a > 0.0
  {
  }

  /** A vector stretched by a positive factor points the same way, and is that much longer. */
  lemma Stretched(mx: real, my: real, c: real, len: real)
    requires c > 0.0 && len > 0.0 && Sq(len) == Sq(mx) + Sq(my)
    ensures SameWay(Times(mx, c), Times(my, c), mx, my)
    ensures Sq(Times(mx, c)) + Sq(Times(my, c)) == Sq(Times(len, c))
  {
    StretchedLength(mx, my, c, len);
    PositiveSquare(len);
    var l := Sq(len);
    assert (mx * c) * my == (my * c) * mx;
    assert (mx * c) * mx + (my * c) * my == Times(mx * mx + my * my, c);
    assert mx * mx + my * my == l;
    PositiveProduct(l, c);
  }

  lemma PositiveProduct(a: real, b: real)
    requires a > 0.0 && b > 0.0
    ensures a * b > 0.0
  {
  }

  lemma StretchedLength(mx: real, my: real, c: real, len: real)
    requires Sq(len) == Sq(mx) + Sq(my)
    ensures Sq(Times(mx, c)) + Sq(Times(my, c)) == Sq(Times(len, c))
  {
    hide Sq, Times;
    SquareOfProduct(mx, c);
    SquareOfProduct(my, c);
    SquareOfProduct(len, c);
    Distributes(Sq(mx), Sq(my), Sq(c));
  }

  /** The direction of an input is the input shrunk to length one if it is longer. */
  lemma DirectionShrinks(i: Input, len: real, root: Root) returns (c: real)
    requires IsRoot(root) && len > 0.0 && Sq(len) == Sq(i.mx) + Sq(i.my)
    ensures c > 0.0 && Direction(i, root) == (Times(i.mx, c), Times(i.my, c)) && Times(len, c) == MinReal(1.0, len)
  {
    NormAtLeast(i, len, root);
    hide IsRoot, Norm, Sq;
    if len > 1.0 {
      c := 1.0 / len;
      DivideIsTimes(i.mx, len);
      DivideIsTimes(i.my, len);
      Divides(1.0, len);
      TimesCommutes(len, c);
    } else {
      c := 1.0;
      TimesOne(i.mx);
      TimesOne(i.my);
      TimesOne(len);
    }
  }

  lemma DivideIsTimes(a: real, len: real)
    requires len > 0.0
    ensures a / len == Times(a, 1.0 / len)
  {
  }

  lemma TimesCommutes(a: real, b: real)
    ensures Times(a, b) == Times(b, a)
  {
  }

  lemma TimesOne(a: real)
    ensures Times(a, 1.0) == a
  {
  }

  /**
   Where an input leads.  A live player whose input (mx, my) has length `len`, not next to
   nothing, is carried `dt` times 20, or less if the input is shorter than one, in exactly the
   direction of the input, and from there to the nearest place in the arena; it faces that
   way, and nothing else about it changes.
   */
  lemma MoveGoesAlong(p: Player, dt: real, root: Root, len: real) returns (dx: real, dy: real)
    requires IsRoot(root) && dt > 0.0 && p.hp > 0 && p.input.Some?
    requires len >= 0.000001 && Sq(len) == Sq(p.input.value.mx) + Sq(p.input.value.my)
    ensures
      var i, q := p.input.value, Move(p, dt, root);
      && SameWay(dx, dy, i.mx, i.my) && Sq(dx) + Sq(dy) == Sq(Times(20.0 * dt, MinReal(1.0, len)))
      && NearestInArena(q.x, p.x + dx) && NearestInArena(q.y, p.y + dy)
      && SameWay(q.fx, q.fy, i.mx, i.my) && Sq(q.fx) + Sq(q.fy) == Sq(MinReal(1.0, len))
      && q == p.(x := q.x, y := q.y, fx := q.fx, fy := q.fy)
  {
    var i := p.input.value;
    var c := DirectionShrinks(i, len, root);
    NormAtLeast(i, len, root);
    var (ux, uy) := Direction(i, root);
    hide Direction, Norm, IsRoot;
    Stretched(i.mx, i.my, c, len);
    var k := 20.0 * dt;
    PositiveProduct(k, c);
    StrideIsTimes(i.mx, c, dt);
    StrideIsTimes(i.my, c, dt);
    Stretched(i.mx, i.my, Times(k, c), len);
    dx, dy := Stride(ux, dt), Stride(uy, dt);
    TimesSwap(len, k, c);
    ClampIsNearest(p.x + dx);
    ClampIsNearest(p.y + dy);
    hide Clamp, Stride, Times, Sq, NearestInArena, SameWay;
  }

  lemma TimesSwap(len: real, k: real, c: real)
    ensures Times(len, Times(k, c)) == Times(k, Times(len, c))
  {
  }

  lemma StrideIsTimes(m: real, c: real, dt: real)
    ensures Stride(Times(m, c), dt) == Times(m, Times(20.0 * dt, c))
  {
    assert m * c * 20.0 * dt == m * (20.0 * dt * c);
  }

  lemma NormAtLeast(i: Input, len: real, root: Root)
    requires IsRoot(root) && len > 0.0 && Sq(len) == Sq(i.mx) + Sq(i.my)
    ensures Norm(i.mx, i.my, root) == len
  {
    NormIs(i.mx, i.my, root);
    hide IsRoot, Norm, Sq;
    OnlyRoot(Norm(i.mx, i.my, root), len);
  }

  /** The dead and the idle keep their place, and everything else. */
  lemma IdleStays(p: Player, dt: real, root: Root, len: real)
    requires IsRoot(root) && len >= 0.0
    requires
      p.hp <= 0 || p.input.None?
      || (Sq(len) == Sq(p.input.value.mx) + Sq(p.input.value.my) && len < 0.000001)
    ensures Move(p, dt, root) == p
  {
    if p.hp > 0 && p.input.Some? {
      var i := p.input.value;
      NormIs(i.mx, i.my, root);
      hide IsRoot, Norm, Sq, Direction;
      OnlyRoot(Norm(i.mx, i.my, root), len);
    }
  }

  // ---------------------------------------------------------------- the beginning

  /** A battle begins with two players in full health, 40 apart, each looking straight at the
      other, with cold weapons and nothing in the air. */
  lemma BattleBegins(a: nat, b: nat)
    requires a != b
    ensures
      var s := NewBattle(a, b).sim;
      && s.players.Keys == {a, b} && s.bullets == map[] && s.removed == []
      && NewBattle(a, b).tick == 0 && !NewBattle(a, b).ended
      && Sq(s.players[a].x - s.players[b].x) + Sq(s.players[a].y - s.players[b].y) == 1600.0
      && (forall p, q | p in s.players && q in s.players && p != q ::
        && s.players[p].hp == 100 && s.players[p].cd == 0.0 && s.players[p].input == None
        && SameWay(s.players[p].fx, s.players[p].fy, s.players[q].x - s.players[p].x, s.players[q].y - s.players[p].y)
        && Sq(s.players[p].fx) + Sq(s.players[p].fy) == 1.0)
  {
    var s := NewBattle(a, b).sim;
    assert s.players.Keys == {a, b};
    var l, r := s.players[a], s.players[b];
    assert l.x == 30.0 && l.y == 50.0 && r.x == 70.0 && r.y == 50.0;
    assert l.fx == 1.0 && l.fy == 0.0 && r.fx == -1.0 && r.fy == 0.0;
    assert Sq(l.x - r.x) == 1600.0 && Sq(l.y - r.y) == 0.0;
  }
}
