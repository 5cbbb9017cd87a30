/**
 The simulation as it is programmed: maps updated in place by one loop per phase.  Each
 loop walks its map in an order given from outside, the hash map's own.
 */
module BattleSim {
  import opened Prelude
  import opened SimModel
  import opened SimFacts

  class BattleSim {
    var players: map<nat, Player>
    var bullets: map<nat, Bullet>
    var removed: seq<nat>
    var nextId: nat

    function State(): Sim
      reads this
    {
      Sim(players, bullets, removed, nextId)
    }

    constructor ()
      ensures State() == Empty
    {
      players, bullets, removed, nextId := map[], map[], [], 1;
    }

    method AddPlayer(id: nat, x: real, y: real)
      modifies this`players
      ensures State() == SimModel.AddPlayer(old(State()), id, x, y)
    {
      var facing := if x <= ARENA * 0.5 then 1.0 else -1.0;
      players := players[id := Player(x, y, MAX_HP, 0, 0.0, facing, 0.0, None)];
    }

    method ApplyInput(id: nat, i: Input)
      modifies this`players
      ensures State() == SimModel.ApplyInput(old(State()), id, i)
    {
      if id !in players {
        return;
      }
      var p := players[id];
      p := p.(input := Some(i));
      p := p.(inputSeq := i.number);
      players := players[id := p];
    }

    static ghost predicate Shifted(p: Player, q: Player) {
      q.x != p.x || q.y != p.y
    }

    /** Phase 1: everybody alive moves as told. */
    method MoveAll(dt: real, order: seq<nat>, root: Root) returns (changed: set<nat>)
      requires Lists(order, players.Keys)
      modifies this`players
      ensures players == (map id | id in old(players) :: Move(old(players)[id], dt, root))
      ensures changed == Moved(old(players), players)
    {
      hide Move, Shifted;
      changed := {};
      var i := 0;
      while i < |order|
        invariant 0 <= i <= |order| && players.Keys == old(players.Keys)
        invariant forall k | 0 <= k < i :: players[order[k]] == Move(old(players)[order[k]], dt, root)
        invariant forall k | i <= k < |order| :: players[order[k]] == old(players)[order[k]] && order[k] !in changed
        invariant forall id | id in changed :: id in order
        invariant forall k | 0 <= k < i :: order[k] in changed <==> Shifted(old(players)[order[k]], players[order[k]])
      {
        var id := order[i];
        assert id in order;
        var p := players[id];
        var q := Move(p, dt, root);
        players := players[id := q];
        assert Shifted(p, q) <==> q.x != p.x || q.y != p.y by { ShiftedMeans(p, q); }
        if q.x != p.x || q.y != p.y {
          changed := changed + {id};
        }
        i := i + 1;
      }
      AllMoved(old(players), players, order, changed, dt, root);
    }

    static lemma ShiftedMeans(p: Player, q: Player)
      ensures Shifted(p, q) <==> q.x != p.x || q.y != p.y
    {
    }

    /** When the whole order has been walked, everybody has been moved. */
    static lemma AllMoved(before: map<nat, Player>, after: map<nat, Player>, order: seq<nat>, changed: set<nat>,
                          dt: real, root: Root)
      requires Lists(order, before.Keys) && after.Keys == before.Keys
      requires forall k | 0 <= k < |order| :: after[order[k]] == Move(before[order[k]], dt, root)
      requires forall id | id in changed :: id in order
      requires forall k | 0 <= k < |order| :: order[k] in changed <==> Shifted(before[order[k]], after[order[k]])
      ensures after == (map id | id in before :: Move(before[id], dt, root))
      ensures changed == Moved(before, after)
    {
      hide Move;
      forall id | id in before
        ensures after[id] == Move(before[id], dt, root) && (id in changed <==> id in Moved(before, after))
      {
        var k :| 0 <= k < |order| && order[k] == id;
      }
    }

    /** Phase 2: weapons cool down. */
    method CoolAll(dtMs: nat, order: seq<nat>)
      requires Lists(order, players.Keys)
      modifies this`players
      ensures players == (map id | id in old(players) :: Cool(old(players)[id], dtMs))
    {
      hide Cool;
      var i := 0;
      while i < |order|
        invariant 0 <= i <= |order| && players.Keys == old(players.Keys)
        invariant forall k | 0 <= k < i :: players[order[k]] == Cool(old(players)[order[k]], dtMs)
        invariant forall k | i <= k < |order| :: players[order[k]] == old(players)[order[k]]
      {
        assert order[i] in order;
        players := players[order[i] := Cool(players[order[i]], dtMs)];
        i := i + 1;
      }
      forall id | id in players ensures players[id] == Cool(old(players)[id], dtMs) {
        var k :| 0 <= k < |order| && order[k] == id;
      }
    }

    method FindNearest(order: seq<nat>, id: nat, root: Root) returns (target: Option<nat>)
      requires id in players && forall o | o in order :: o in players
      ensures target == Nearest(players, order, id, root, None)
    {
      hide Distance;
      target := None;
      var i := 0;
      assert order[0..] == order;
      while i < |order|
        invariant 0 <= i <= |order| && (target.Some? ==> target.value in players)
        invariant Nearest(players, order[i..], id, root, target) == Nearest(players, order, id, root, None)
      {
        assert order[i..][0] == order[i] && order[i..][1..] == order[i + 1..];
        var o := order[i];
        if o != id && players[o].Alive() {
          var d := Distance(players[id], players[o], root);
          if target.None? || d < Distance(players[id], players[target.value], root) {
            target := Some(o);
          }
        }
        i := i + 1;
      }
    }

    /** Towards the nearest live enemy, or else the way the player last moved. */
    method TakeAim(order: seq<nat>, id: nat, root: Root) returns (dx: real, dy: real)
      requires id in players && forall o | o in order :: o in players
      ensures (dx, dy) == Aim(players, order, id, root)
    {
      hide Nearest, Toward;
      var p := players[id];
      var target := FindNearest(order, id, root);
      dx, dy := p.fx, p.fy;
      if target.Some? {
        var d := Toward(players[target.value].x - p.x, players[target.value].y - p.y, root);
        dx, dy := d.0, d.1;
      }
    }

    method FireOne(order: seq<nat>, id: nat, root: Root)
      requires id in players && forall o | o in order :: o in players
      modifies this`players, this`bullets, this`nextId
      ensures State() == SimModel.FireOne(old(State()), order, id, root)
    {
      hide Aim;
      var p := players[id];
      if !p.Alive() || p.input.None? || !p.input.value.attack || p.cd > 0.0 {
        return;
      }
      var dx, dy := TakeAim(order, id, root);
      var b := Bullet(id, p.x + dx * 2.0, p.y + dy * 2.0, dx * BULLET_SPEED, dy * BULLET_SPEED, 0.0);
      bullets := bullets[nextId := b];
      nextId := nextId + 1;
      players := players[id := p.(cd := ATTACK_CD)];
    }

    /** Firing peels one shooter off the front of what is left of the order. */
    static lemma FireAllUnrolls(s: Sim, order: seq<nat>, i: nat, root: Root)
      requires i <= |order| && forall o | o in order :: o in s.players
      ensures i == |order| ==> SimModel.FireAll(s, order, order[i..], root) == s
      ensures i < |order| ==>
        SimModel.FireAll(s, order, order[i..], root)
          == SimModel.FireAll(SimModel.FireOne(s, order, order[i], root), order, order[i + 1..], root)
    {
      hide SimModel.FireOne;
      if i < |order| {
        assert order[i..][0] == order[i] && order[i..][1..] == order[i + 1..];
      }
    }

    /** Phase 3: whoever attacks with a cold weapon fires. */
    method FireAll(order: seq<nat>, root: Root)
      requires Lists(order, players.Keys)
      modifies this`players, this`bullets, this`nextId
      ensures State() == SimModel.FireAll(old(State()), order, order, root)
    {
      hide SimModel.FireOne, SimModel.FireAll;
      var i := 0;
      assert order[0..] == order;
      while i < |order|
        invariant 0 <= i <= |order| && players.Keys == old(players.Keys) && removed == old(removed)
        invariant SimModel.FireAll(State(), order, order[i..], root) ==
          SimModel.FireAll(old(State()), order, order, root)
      {
        FireAllUnrolls(State(), order, i, root);
        assert order[i] in order;
        FireOne(order, order[i], root);
        i := i + 1;
      }
      FireAllUnrolls(State(), order, i, root);
    }

    method FindVictim(order: seq<nat>, b: Bullet, dt: real) returns (hit: Option<nat>)
      requires forall o | o in order :: o in players
      ensures hit == Victim(players, order, b, dt, None)
    {
      hide Param, InRange;
      hit := None;
      var i := 0;
      assert order[0..] == order;
      while i < |order|
        invariant 0 <= i <= |order| && (hit.Some? ==> hit.value in players)
        invariant Victim(players, order[i..], b, dt, hit) == Victim(players, order, b, dt, None)
      {
        assert order[i..][0] == order[i] && order[i..][1..] == order[i + 1..];
        var o := order[i];
        if o != b.owner && players[o].Alive() && InRange(b, players[o], dt) {
          if hit.None? || Param(b, players[o], dt) < Param(b, players[hit.value], dt) {
            hit := Some(o);
          }
        }
        i := i + 1;
      }
    }

    /** Phase 4, one bullet: it hits the first target on its way, or flies on. */
    method AdvanceBullet(id: nat, order: seq<nat>, dt: real, root: Root, changed0: set<nat>,
                         ghost hits0: seq<(nat, nat)>)
      returns (changed: set<nat>, ghost hits: seq<(nat, nat)>)
      requires forall o | o in order :: o in players
      modifies this`players, this`bullets, this`removed
      ensures Flight(players, bullets, removed, changed, hits)
           == Advance(Flight(old(players), old(bullets), old(removed), changed0, hits0), order, id, dt, root)
    {
      changed, hits := changed0, hits0;
      if id !in bullets {
        return;
      }
      var b := bullets[id];
      var hit := FindVictim(order, b, dt);
      var remove := false;
      if hit.Some? {
        var v := hit.value;
        var hp := players[v].hp - DAMAGE;
        players := players[v := players[v].(hp := if hp > 0 then hp else 0)];
        changed := changed + {v};
        hits := hits + [(id, v)];
        remove := true;
      } else {
        b := Fly(b, dt, root);
        bullets := bullets[id := b];
        remove := Spent(b);
      }
      if remove {
        removed := removed + [id];
        bullets := bullets - {id};
        assert bullets == old(bullets) - {id};
      }
    }

    method AdvanceAll(todo: seq<nat>, order: seq<nat>, dt: real, root: Root, changed0: set<nat>)
      returns (changed: set<nat>, ghost hits: seq<(nat, nat)>)
      requires forall o | o in order :: o in players
      modifies this`players, this`bullets, this`removed
      ensures Flight(players, bullets, removed, changed, hits)
           == SimModel.AdvanceAll(Flight(old(players), old(bullets), old(removed), changed0, []), order, todo, dt, root)
    {
      hide Advance;
      changed, hits := changed0, [];
      ghost var f0 := Flight(players, bullets, removed, changed, hits);
      var i := 0;
      assert todo[0..] == todo;
      while i < |todo|
        invariant 0 <= i <= |todo| && players.Keys == old(players.Keys)
        invariant SimModel.AdvanceAll(Flight(players, bullets, removed, changed, hits), order, todo[i..], dt, root)
               == SimModel.AdvanceAll(f0, order, todo, dt, root)
      {
        assert todo[i..][0] == todo[i] && todo[i..][1..] == todo[i + 1..];
        changed, hits := AdvanceBullet(todo[i], order, dt, root, changed, hits);
        i := i + 1;
      }
    }

    /** One step: only bullets that existed before it fly in it. */
    method Step(dtMs: nat, order: seq<nat>, bulletOrder: seq<nat>, root: Root) returns (changed: set<nat>)
      requires Lists(order, players.Keys) && Lists(bulletOrder, bullets.Keys)
      modifies this
      ensures (State(), changed) == SimModel.Step(old(State()), dtMs, order, bulletOrder, root)
    {
      hide Move, Cool, SimModel.FireAll, SimModel.AdvanceAll;
      var dt := dtMs as real / 1000.0;
      removed := [];
      var projectilesToAdvance := bulletOrder;
      changed := MoveAll(dt, order, root);
      assert players.Keys == old(players).Keys;
      ghost var moved := players;
      CoolAll(dtMs, order);
      assert players == Prepare(old(players), dtMs, root);
      assert players.Keys == old(players).Keys;
      FireAll(order, root);
      ghost var s1 := BeforeFlight(old(State()), dtMs, order, root);
      assert State() == s1;
      MovedStays(old(State()), dtMs, order, root, moved);
      assert changed == Moved(old(players), players);
      ghost var hits;
      changed, hits := AdvanceAll(projectilesToAdvance, order, dt, root, changed);
    }

    /** Cooling and firing move nobody. */
    static lemma MovedStays(s: Sim, dtMs: nat, order: seq<nat>, root: Root, moved: map<nat, Player>)
      requires Lists(order, s.players.Keys)
      requires moved == (map id | id in s.players :: Move(s.players[id], dtMs as real / 1000.0, root))
      ensures Moved(s.players, moved) == Moved(s.players, BeforeFlight(s, dtMs, order, root).players)
    {
      hide Move, SimModel.FireAll;
      var s0 := s.(players := Prepare(s.players, dtMs, root), removed := []);
      assert s0.players.Keys == s.players.Keys;
      FireKeepsPlaces(s0, order, order, root);
    }

    static lemma {:induction false} FireKeepsPlaces(s: Sim, order: seq<nat>, todo: seq<nat>, root: Root)
      requires (forall o | o in order :: o in s.players) && (forall o | o in todo :: o in s.players)
      ensures
        var r := SimModel.FireAll(s, order, todo, root).players;
        r.Keys == s.players.Keys && forall id | id in s.players ::
          r[id].x == s.players[id].x && r[id].y == s.players[id].y
      decreases |todo|
    {
      if todo != [] {
        hide Aim, Fires, NewBullet;
        var s1 := SimModel.FireOne(s, order, todo[0], root);
        FireKeepsPlaces(s1, order, todo[1..], root);
      }
    }

    method TakeRemovedProjectileIds() returns (ids: seq<nat>)
      modifies this`removed
      ensures (State(), ids) == TakeRemoved(old(State()))
    {
      ids := removed;
      removed := [];
    }

    static ghost function AliveAmong(players: map<nat, Player>, ids: seq<nat>): set<nat> {
      set id | id in ids && id in players && players[id].Alive()
    }

    static lemma AliveGrows(players: map<nat, Player>, order: seq<nat>, i: nat)
      requires Lists(order, players.Keys) && i < |order|
      ensures order[i] in players && order[i] !in AliveAmong(players, order[..i])
      ensures AliveAmong(players, order[..i + 1]) ==
        AliveAmong(players, order[..i]) + if players[order[i]].Alive() then {order[i]} else {}
    {
      assert order[..i + 1] == order[..i] + [order[i]];
      assert order[i] in order;
    }

    static lemma WinnerIs(s: Sim, order: seq<nat>, last: nat)
      requires Lists(order, s.players.Keys)
      ensures |AliveAmong(s.players, order)| == 1 && last in AliveAmong(s.players, order) ==> Winner(s) == last
      ensures |AliveAmong(s.players, order)| != 1 ==> Winner(s) == 0
    {
      var ids := AliveIds(s.players);
      assert AliveAmong(s.players, order) == ids;
      if |ids| == 1 && last in ids {
        assert |ids - {last}| == 0;
        assert ids == {last};
      }
    }

    /** The only player left alive, 0 if there is not exactly one. */
    method WinnerOrZero(order: seq<nat>) returns (w: nat)
      requires Lists(order, players.Keys)
      ensures w == Winner(State())
    {
      hide Lists, Winner, AliveAmong;
      var last, alive, i := 0, 0, 0;
      assert AliveAmong(players, order[..0]) == {} by { NobodyAmongNone(players, order); }
      while i < |order|
        invariant 0 <= i <= |order|
        invariant alive == |AliveAmong(players, order[..i])| && (alive >= 1 ==> last in AliveAmong(players, order[..i]))
      {
        AliveGrows(players, order, i);
        if players[order[i]].Alive() {
          alive := alive + 1;
          last := order[i];
        }
        i := i + 1;
      }
      assert order[..i] == order;
      WinnerIs(State(), order, last);
      w := if alive == 1 then last else 0;
    }

    static lemma NobodyAmongNone(players: map<nat, Player>, order: seq<nat>)
      ensures AliveAmong(players, order[..0]) == {}
    {
    }
  }
}
