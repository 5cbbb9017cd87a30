/**
 What one step of the simulation does: which bullets live and die, who is reported as
 changed, how much health is lost, and whom a bullet hits.
 */
module SimFacts {
  import opened Prelude
  import opened SimModel

  // ---------------------------------------------------------------- firing

  ghost predicate IdsBelow(bullets: map<nat, Bullet>, n: nat) {
    forall id | id in bullets :: id < n
  }

  /** Firing changes nothing of a player but the cooldown. */
  ghost predicate OnlyCooldown(before: map<nat, Player>, after: map<nat, Player>) {
    && after.Keys == before.Keys
    && (forall id | id in before :: after[id] == before[id].(cd := after[id].cd))
  }

  /** Old bullets stay as they are; new ones get the next ids, all of them used. */
  lemma {:induction false} FireAllFacts(s: Sim, order: seq<nat>, todo: seq<nat>, root: Root)
    requires (forall o | o in order :: o in s.players) && (forall o | o in todo :: o in s.players)
    requires IdsBelow(s.bullets, s.nextId)
    ensures
      var r := FireAll(s, order, todo, root);
      && OnlyCooldown(s.players, r.players)
      && IdsBelow(r.bullets, r.nextId)
      && (forall id | id in s.bullets :: id in r.bullets && r.bullets[id] == s.bullets[id])
      && (forall id | id in r.bullets && id !in s.bullets :: s.nextId <= id)
      && (forall id | s.nextId <= id < r.nextId :: id in r.bullets)
    decreases |todo|
  {
    if todo != [] {
      hide Aim, NewBullet, Fires;
      var s1 := FireOne(s, order, todo[0], root);
      FireAllFacts(s1, order, todo[1..], root);
    }
  }

  // ---------------------------------------------------------------- flight

  /** Flight changes nothing of a player but the health, and never for the better. */
  ghost predicate OnlyHp(before: map<nat, Player>, after: map<nat, Player>) {
    && after.Keys == before.Keys
    && (forall id | id in before :: after[id] == before[id].(hp := after[id].hp) && after[id].hp <= before[id].hp)
  }

  function HpChanged(before: map<nat, Player>, after: map<nat, Player>): set<nat> {
    set id | id in before && id in after && after[id].hp != before[id].hp
  }

  ghost predicate Subset(s: seq<nat>, t: seq<nat>) {
    forall x | x in s :: x in t
  }

  lemma Tail(s: seq<nat>)
    requires NoRepeat(s) && s != []
    ensures NoRepeat(s[1..]) && s[0] !in s[1..]
    ensures forall x | x in s[1..] :: x in s
    ensures forall x | x in s :: x == s[0] || x in s[1..]
  {
    var t := s[1..];
    assert forall i | 0 <= i < |t| :: t[i] == s[i + 1];
    assert s == [s[0]] + t;
  }

  /** A victim is a target: alive, not the owner, in range. */
  lemma {:induction false} VictimIsTarget(players: map<nat, Player>, order: seq<nat>, b: Bullet, dt: real,
                                          best: Option<nat>)
    requires (forall o | o in order :: o in players) && (best.Some? ==> Target(players, b, best.value, dt))
    ensures
      var r := Victim(players, order, b, dt, best);
      && (r.Some? ==> Target(players, b, r.value, dt))
      && (r.None? ==> best.None? && forall o | o in order :: !Target(players, b, o, dt))
      && (forall o | o in order && Target(players, b, o, dt) ::
            r.Some? && Param(b, players[r.value], dt) <= Param(b, players[o], dt))
      && (best.Some? ==> r.Some? && Param(b, players[r.value], dt) <= Param(b, players[best.value], dt))
    decreases |order|
  {
    if order != [] {
      hide Param, InRange;
      var o := order[0];
      var better := Target(players, b, o, dt) &&
        (best.None? || Param(b, players[o], dt) < Param(b, players[best.value], dt));
      VictimIsTarget(players, order[1..], b, dt, if better then Some(o) else best);
    }
  }

  /** One bullet: it flies on, or is removed for good, once. */
  lemma AdvanceFacts(f: Flight, order: seq<nat>, id: nat, dt: real, root: Root)
    requires forall o | o in order :: o in f.players
    ensures
      var r := Advance(f, order, id, dt, root);
      && OnlyHp(f.players, r.players)
      && r.changed == f.changed + HpChanged(f.players, r.players)
      && (r.removed == f.removed || (r.removed == f.removed + [id] && id in f.bullets))
      && r.bullets.Keys == f.bullets.Keys - (if r.removed == f.removed then {} else {id})
      && (forall x | x in r.bullets && x != id :: r.bullets[x] == f.bullets[x])
  {
    if id in f.bullets {
      var b := f.bullets[id];
      VictimIsTarget(f.players, order, b, dt, None);
      hide Victim, InRange, Fly, Spent;
    }
  }

  lemma {:induction false} AdvanceAllFacts(f: Flight, order: seq<nat>, todo: seq<nat>, dt: real, root: Root)
    requires forall o | o in order :: o in f.players
    requires NoRepeat(todo)
    ensures
      var r := AdvanceAll(f, order, todo, dt, root);
      && OnlyHp(f.players, r.players)
      && r.changed == f.changed + HpChanged(f.players, r.players)
      && |f.removed| <= |r.removed| && r.removed[..|f.removed|] == f.removed
      && Subset(r.removed[|f.removed|..], todo) && NoRepeat(r.removed[|f.removed|..])
      && (forall x | x in r.removed[|f.removed|..] :: x in f.bullets)
      && (forall x | x in f.bullets :: x in r.bullets <==> x !in r.removed[|f.removed|..])
      && (forall x | x in r.bullets :: x in f.bullets && (x !in todo ==> r.bullets[x] == f.bullets[x]))
    decreases |todo|
  {
    if todo != [] {
      hide Advance;
      AdvanceFacts(f, order, todo[0], dt, root);
      var f1 := Advance(f, order, todo[0], dt, root);
      var rest := todo[1..];
      assert forall i | 0 <= i < |rest| :: rest[i] == todo[i + 1];
      assert todo[0] !in rest;
      AdvanceAllFacts(f1, order, rest, dt, root);
      AdvanceAllStep(f, f1, AdvanceAll(f1, order, rest, dt, root), todo);
    }
  }

  /** Chaining one bullet with the rest. */
  lemma AdvanceAllStep(f: Flight, f1: Flight, r: Flight, todo: seq<nat>)
    requires todo != [] && todo[0] !in todo[1..]
    requires OnlyHp(f.players, f1.players) && f1.changed == f.changed + HpChanged(f.players, f1.players)
    requires f1.removed == f.removed || (f1.removed == f.removed + [todo[0]] && todo[0] in f.bullets)
    requires f1.bullets.Keys == f.bullets.Keys - (if f1.removed == f.removed then {} else {todo[0]})
    requires forall x | x in f1.bullets && x != todo[0] :: f1.bullets[x] == f.bullets[x]
    requires OnlyHp(f1.players, r.players) && r.changed == f1.changed + HpChanged(f1.players, r.players)
    requires |f1.removed| <= |r.removed| && r.removed[..|f1.removed|] == f1.removed
    requires Subset(r.removed[|f1.removed|..], todo[1..]) && NoRepeat(r.removed[|f1.removed|..])
    requires forall x | x in r.removed[|f1.removed|..] :: x in f1.bullets
    requires forall x | x in f1.bullets :: x in r.bullets <==> x !in r.removed[|f1.removed|..]
    requires forall x | x in r.bullets :: x in f1.bullets && (x !in todo[1..] ==> r.bullets[x] == f1.bullets[x])
    ensures OnlyHp(f.players, r.players)
    ensures r.changed == f.changed + HpChanged(f.players, r.players)
    ensures |f.removed| <= |r.removed| && r.removed[..|f.removed|] == f.removed
    ensures Subset(r.removed[|f.removed|..], todo) && NoRepeat(r.removed[|f.removed|..])
    ensures forall x | x in r.removed[|f.removed|..] :: x in f.bullets
    ensures forall x | x in f.bullets :: x in r.bullets <==> x !in r.removed[|f.removed|..]
    ensures forall x | x in r.bullets :: x in f.bullets && (x !in todo ==> r.bullets[x] == f.bullets[x])
  {
    assert f.changed + HpChanged(f.players, f1.players) + HpChanged(f1.players, r.players)
        == f.changed + HpChanged(f.players, r.players);
    assert todo == [todo[0]] + todo[1..];
    var tail1 := r.removed[|f1.removed|..];
    var tail := r.removed[|f.removed|..];
    if f1.removed == f.removed {
      assert tail == tail1;
    } else {
      assert r.removed == f1.removed + tail1;
      assert tail == [todo[0]] + tail1;
      assert todo[0] !in tail1;
    }
  }

  // ---------------------------------------------------------------- one step

  /** Players whose position or health differs. */
  function Visible(before: map<nat, Player>, after: map<nat, Player>): set<nat> {
    set id | id in before && id in after &&
      (after[id].x != before[id].x || after[id].y != before[id].y || after[id].hp != before[id].hp)
  }

  lemma PrepareFacts(players: map<nat, Player>, dtMs: nat, root: Root)
    ensures
      var r := Prepare(players, dtMs, root);
      r.Keys == players.Keys &&
        (forall id | id in players :: r[id].hp == players[id].hp && r[id].input == players[id].input)
  {
    hide Direction, Clamp;
  }

  lemma BeforeFlightFacts(s: Sim, dtMs: nat, order: seq<nat>, root: Root)
    requires Lists(order, s.players.Keys) && IdsBelow(s.bullets, s.nextId)
    ensures
      var r := BeforeFlight(s, dtMs, order, root);
      && OnlyCooldown(Prepare(s.players, dtMs, root), r.players)
      && (forall id | id in s.players :: r.players[id].hp == s.players[id].hp)
      && IdsBelow(r.bullets, r.nextId) && s.nextId <= r.nextId
      && (forall id | id in s.bullets :: id in r.bullets && r.bullets[id] == s.bullets[id])
      && (forall id | id in r.bullets && id !in s.bullets :: s.nextId <= id)
      && (forall id | s.nextId <= id < r.nextId :: id in r.bullets)
  {
    hide Prepare, FireAll;
    PrepareFacts(s.players, dtMs, root);
    FireAllFacts(s.(players := Prepare(s.players, dtMs, root), removed := []), order, order, root);
  }

  /**
   A step reports exactly the players whose position or health changed.  A bullet is live
   afterwards iff it was live and is not in the list of removed ones, or is new; the list
   has no repetitions and only names bullets that were live before.
   */
  lemma StepFacts(s: Sim, dtMs: nat, order: seq<nat>, bulletOrder: seq<nat>, root: Root)
    requires Lists(order, s.players.Keys) && Lists(bulletOrder, s.bullets.Keys) && IdsBelow(s.bullets, s.nextId)
    ensures
      var (r, changed) := Step(s, dtMs, order, bulletOrder, root);
      && r.players.Keys == s.players.Keys
      && changed == Visible(s.players, r.players)
      && NoRepeat(r.removed) && (forall id | id in r.removed :: id in s.bullets)
      && s.nextId <= r.nextId && IdsBelow(r.bullets, r.nextId)
      && (forall id :: id in r.bullets <==> (id in s.bullets && id !in r.removed) || s.nextId <= id < r.nextId)
      && (forall id | id in s.players :: r.players[id].hp <= s.players[id].hp)
  {
    hide BeforeFlight, AdvanceAll, Prepare;
    BeforeFlightFacts(s, dtMs, order, root);
    var s1 := BeforeFlight(s, dtMs, order, root);
    var f := Flight(s1.players, s1.bullets, [], Moved(s.players, s1.players), []);
    var dt := dtMs as real / 1000.0;
    AdvanceAllFacts(f, order, bulletOrder, dt, root);
    var r := AdvanceAll(f, order, bulletOrder, dt, root);
    assert r.removed[0..] == r.removed;
    assert r.changed == Visible(s.players, r.players);
  }

  // ---------------------------------------------------------------- health

  /** Health moves in quarters, so a hit on a live player always costs exactly 25. */
  ghost predicate HpOk(players: map<nat, Player>) {
    forall id | id in players :: 0 <= players[id].hp && players[id].hp % DAMAGE == 0
  }

  function TotalHp(players: map<nat, Player>, order: seq<nat>): int
    requires forall o | o in order :: o in players
    decreases |order|
  {
    if order == [] then 0 else players[order[0]].hp + TotalHp(players, order[1..])
  }

  lemma {:induction false} TotalAfterHit(players: map<nat, Player>, order: seq<nat>, v: nat)
    requires (forall o | o in order :: o in players) && NoRepeat(order) && v in players
    requires HpOk(players) && players[v].Alive()
    ensures TotalHp(players[v := Hurt(players[v])], order) ==
      TotalHp(players, order) - (if v in order then DAMAGE else 0)
    decreases |order|
  {
    if order != [] {
      var rest := order[1..];
      assert forall i | 0 <= i < |rest| :: rest[i] == order[i + 1];
      TotalAfterHit(players, rest, v);
      assert order == [order[0]] + rest;
      if v == order[0] {
        assert v !in rest;
        assert Hurt(players[v]).hp == players[v].hp - DAMAGE;
      }
    }
  }

  lemma HurtOk(players: map<nat, Player>, v: nat)
    requires HpOk(players) && v in players && players[v].Alive()
    ensures HpOk(players[v := Hurt(players[v])])
  {
  }

  /** Every hit is a removed bullet and costs its victim exactly 25. */
  lemma AdvanceHealth(f: Flight, order: seq<nat>, id: nat, dt: real, root: Root)
    requires Lists(order, f.players.Keys) && HpOk(f.players)
    ensures
      var r := Advance(f, order, id, dt, root);
      && HpOk(r.players)
      && (forall o | o in order :: o in r.players)
      && |f.hits| <= |r.hits| <= |f.hits| + 1
      && (r.hits != f.hits ==> r.hits == f.hits + [(id, r.hits[|f.hits|].1)] && r.removed == f.removed + [id])
      && TotalHp(r.players, order) + DAMAGE * |r.hits| == TotalHp(f.players, order) + DAMAGE * |f.hits|
  {
    if id in f.bullets {
      var b := f.bullets[id];
      VictimIsTarget(f.players, order, b, dt, None);
      var v := Victim(f.players, order, b, dt, None);
      hide Victim, InRange, Fly, Spent, TotalHp, HpOk, Hurt;
      if v.Some? {
        TotalAfterHit(f.players, order, v.value);
        HurtOk(f.players, v.value);
      }
    }
  }

  lemma {:induction false} FlightHealth(f: Flight, order: seq<nat>, todo: seq<nat>, dt: real, root: Root)
    requires Lists(order, f.players.Keys) && HpOk(f.players)
    ensures
      var r := AdvanceAll(f, order, todo, dt, root);
      && HpOk(r.players) && |f.hits| <= |r.hits|
      && (forall o | o in order :: o in r.players)
      && TotalHp(r.players, order) + DAMAGE * |r.hits| == TotalHp(f.players, order) + DAMAGE * |f.hits|
    decreases |todo|
  {
    if todo != [] {
      hide Advance, TotalHp, HpOk;
      AdvanceHealth(f, order, todo[0], dt, root);
      FlightHealth(Advance(f, order, todo[0], dt, root), order, todo[1..], dt, root);
    }
  }

  lemma {:induction false} SameTotal(p: map<nat, Player>, q: map<nat, Player>, order: seq<nat>)
    requires forall o | o in order :: o in p && o in q && p[o].hp == q[o].hp
    ensures TotalHp(p, order) == TotalHp(q, order)
    decreases |order|
  {
    if order != [] {
      SameTotal(p, q, order[1..]);
    }
  }

  /** Conservation: over a step, the health lost by all players together is 25 times the
      number of bullets that hit somebody. */
  lemma StepHealth(s: Sim, dtMs: nat, order: seq<nat>, bulletOrder: seq<nat>, root: Root)
    requires Lists(order, s.players.Keys) && Lists(bulletOrder, s.bullets.Keys) && IdsBelow(s.bullets, s.nextId)
    requires HpOk(s.players)
    ensures
      var f := Flown(s, dtMs, order, bulletOrder, root);
      && HpOk(f.players)
      && TotalHp(s.players, order) - TotalHp(f.players, order) == DAMAGE * |f.hits|
  {
    hide BeforeFlight, AdvanceAll, Prepare, TotalHp;
    BeforeFlightFacts(s, dtMs, order, root);
    var s1 := BeforeFlight(s, dtMs, order, root);
    var f := Flight(s1.players, s1.bullets, [], Moved(s.players, s1.players), []);
    SameTotal(s.players, s1.players, order);
    FlightHealth(f, order, bulletOrder, dtMs as real / 1000.0, root);
  }

  /** The bullets that hit somebody, in the order of the hits. */
  function HitIds(hits: seq<(nat, nat)>): seq<nat> {
    seq(|hits|, i requires 0 <= i < |hits| => hits[i].0)
  }

  ghost predicate HitsOk(f: Flight, todo: seq<nat>) {
    && NoRepeat(HitIds(f.hits)) && Subset(HitIds(f.hits), f.removed)
    && (forall id | id in HitIds(f.hits) :: id !in todo)
  }

  lemma HitStep(f: Flight, f1: Flight, todo: seq<nat>)
    requires NoRepeat(todo) && todo != [] && HitsOk(f, todo)
    requires f1.removed == f.removed || f1.removed == f.removed + [todo[0]]
    requires f1.hits != f.hits ==>
      |f1.hits| == |f.hits| + 1 && f1.hits == f.hits + [(todo[0], f1.hits[|f.hits|].1)] && f1.removed ==
        f.removed + [todo[0]]
    ensures HitsOk(f1, todo[1..])
  {
    Tail(todo);
    if f1.hits != f.hits {
      var ids := HitIds(f.hits);
      assert HitIds(f1.hits) == ids + [todo[0]];
      assert todo[0] !in ids;
      assert todo[0] in f1.removed;
    }
  }

  /** Every hit took a bullet out of the air, a different one each time. */
  lemma {:induction false} HitsAreRemovals(f: Flight, order: seq<nat>, todo: seq<nat>, dt: real, root: Root)
    requires Lists(order, f.players.Keys) && HpOk(f.players) && NoRepeat(todo) && HitsOk(f, todo)
    ensures HitsOk(AdvanceAll(f, order, todo, dt, root), [])
    decreases |todo|
  {
    if todo != [] {
      hide Advance, HpOk, TotalHp, HitsOk, NoRepeat, OnlyHp, HpChanged;
      AdvanceHealth(f, order, todo[0], dt, root);
      AdvanceFacts(f, order, todo[0], dt, root);
      var f1 := Advance(f, order, todo[0], dt, root);
      Tail(todo);
      HitStep(f, f1, todo);
      HitsAreRemovals(f1, order, todo[1..], dt, root);
    }
  }
}
