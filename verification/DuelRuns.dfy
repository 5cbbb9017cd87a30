/**
 Whole battles between two players do not depend on the order in which hash maps are walked:
 with the same inputs, any two runs show the same players after every tick.
 */
module DuelRuns {
  import opened Prelude
  import opened SimModel
  import opened SimFacts
  import opened Collision
  import opened Movement
  import opened Duel
  import opened Replication

  // ---------------------------------------------------------------- what every battle keeps

  ghost predicate BothAlive(players: map<nat, Player>, a: nat, b: nat) {
    a in players && b in players && players[a].Alive() && players[b].Alive()
  }

  /** Two players, whose bullets these are; while the battle goes on both are alive, or both
      have died in one tick.  (The winner of a battle is named by its id, and 0 names nobody;
      the server's ids start at 1.) */
  ghost predicate DuelOk(b: Battle, p: nat, q: nat) {
    && TwoPlayers(b.sim.players, p, q)
    && OwnersAre(b.sim.bullets, {p, q}) && HpOk(b.sim.players) && AllInside(b.sim)
    && (!b.ended && p != 0 && q != 0 ==> (b.sim.players[p].Alive() <==> b.sim.players[q].Alive()))
  }

  lemma NewDuelOk(p: nat, q: nat)
    requires p != q
    ensures DuelOk(NewBattle(p, q), p, q)
  {
    assert NewBattle(p, q).sim.players.Keys == {p, q};
  }

  lemma OneLeftWins(s: Sim, p: nat, q: nat)
    requires TwoPlayers(s.players, p, q) && p != 0 && q != 0
    ensures Winner(s) == 0 ==> (s.players[p].Alive() <==> s.players[q].Alive())
  {
    assert forall x | x in s.players.Keys :: x == p || x == q;
    if s.players[p].Alive() && !s.players[q].Alive() {
      assert AliveIds(s.players) == {p};
    } else if s.players[q].Alive() && !s.players[p].Alive() {
      assert AliveIds(s.players) == {q};
    }
  }

  lemma OwnersAfter(s: Sim, r: Sim, p: nat, q: nat, dtMs: nat, root: Root)
    requires TwoPlayers(s.players, p, q) && OwnersAre(s.bullets, {p, q}) && DuelStep(s, r, p, q, dtMs, root)
    ensures OwnersAre(r.bullets, {p, q})
  {
    hide Prepare, Fires, ShotAt, FliesOn, Spent, PlayersAfter;
    PrepareFacts(s.players, dtMs, root);
    forall id | id in r.bullets ensures r.bullets[id].owner in {p, q} {
      if id < s.nextId {
        assert OldBullet(s.bullets[id], id, r.bullets, Prepare(s.players, dtMs, root), r.players, p, q,
          dtMs as real / 1000.0, root);
      } else {
        assert IsShot(r.bullets[id], Prepare(s.players, dtMs, root), p, q, root);
        assert r.bullets[id].owner in s.players.Keys;
      }
    }
  }

  lemma TickDuelOk(b: Battle, o: Orders, root: Root, p: nat, q: nat)
    requires IsRoot(root) && DuelOk(b, p, q) && OrdersFit(b, o, root)
    ensures DuelOk(Ticked(b, o, root), p, q)
    ensures DuelStep(b.sim, Stepped(b, o, root), p, q, TICK_MS, root)
  {
    hide Step, Lists, IsRoot, HpOk, Winner, DuelStep, OwnersAre, Flown, TotalHp;
    var s, r := b.sim, Stepped(b, o, root);
    StepIsDuel(s, TICK_MS, o.players, o.bullets, root, p, q);
    OwnersAfter(s, r, p, q, TICK_MS, root);
    StepFacts(s, TICK_MS, o.players, o.bullets, root);
    StepInside(s, o.players, o.bullets, root);
    HpAfter(s, o.players, o.bullets, root);
    var t := TakeRemoved(r).0;
    if p != 0 && q != 0 {
      OneLeftWins(t, p, q);
    }
  }

  lemma HpAfter(s: Sim, order: seq<nat>, bulletOrder: seq<nat>, root: Root)
    requires Lists(order, s.players.Keys) && Lists(bulletOrder, s.bullets.Keys) && IdsBelow(s.bullets, s.nextId)
    requires HpOk(s.players)
    ensures HpOk(Step(s, TICK_MS, order, bulletOrder, root).0.players)
  {
    hide Flown, HpOk, TotalHp, Lists;
    StepHealth(s, TICK_MS, order, bulletOrder, root);
  }

  // ---------------------------------------------------------------- renaming bullets

  /** `ren` gives every bullet of one map its counterpart in the other. */
  ghost predicate Renames(ren: map<nat, nat>, xs: map<nat, Bullet>, ys: map<nat, Bullet>) {
    && ren.Keys == xs.Keys
    && (forall i | i in xs :: ren[i] in ys && ys[ren[i]] == xs[i])
    && (forall i, j | i in xs && j in xs && i != j :: ren[i] != ren[j])
    && (forall k | k in ys :: exists i :: i in xs && ren[i] == k)
  }

  function Image(xs: set<nat>, ren: map<nat, nat>): set<nat> {
    set i | i in xs && i in ren :: ren[i]
  }

  lemma {:induction false} InjectiveSize(xs: set<nat>, ren: map<nat, nat>)
    requires (forall i | i in xs :: i in ren) && (forall i, j | i in xs && j in xs && i != j :: ren[i] != ren[j])
    ensures |Image(xs, ren)| == |xs|
    decreases |xs|
  {
    if xs != {} {
      var x :| x in xs;
      var rest := xs - {x};
      InjectiveSize(rest, ren);
      assert Image(xs, ren) == Image(rest, ren) + {ren[x]};
      assert ren[x] !in Image(rest, ren);
    }
  }

  /** Counterparts threaten the same. */
  lemma SameThreats(ren: map<nat, nat>, xs: map<nat, Bullet>, ys: map<nat, Bullet>, v: nat, p: Player, dt: real)
    requires Renames(ren, xs, ys)
    ensures |Threats(xs, v, p, dt)| == |Threats(ys, v, p, dt)|
  {
    hide InRange;
    var ts := Threats(xs, v, p, dt);
    InjectiveSize(ts, ren);
    assert Image(ts, ren) == Threats(ys, v, p, dt);
  }

  ghost function NewOf(bullets: map<nat, Bullet>, first: nat, p: nat): (id: nat)
    requires HasNew(bullets, first, p)
    ensures id in bullets && first <= id && bullets[id].owner == p
  {
    var id :| id in bullets && first <= id && bullets[id].owner == p; id
  }

  /** The counterparts after a step that both players survive. */
  ghost function Renamed(ren: map<nat, nat>, xs: map<nat, Bullet>, first1: nat, ys: map<nat, Bullet>,
                         first2: nat): map<nat, nat> {
    map i | i in xs ::
      if i < first1 then (if i in ren then ren[i] else 0)
      else if HasNew(ys, first2, xs[i].owner) then NewOf(ys, first2, xs[i].owner) else 0
  }

  /** What one side's step says about a single bullet id. */
  ghost predicate Side(before: map<nat, Bullet>, bullets: map<nat, Bullet>, first: nat, now: map<nat, Player>,
                       after: map<nat, Player>, a: nat, b: nat, dt: real, root: Root)
  {
    NewBullets(bullets, first, now, a, b, root) && OldBullets(before, bullets, first, now, after, a, b, dt, root)
  }

  lemma OldFate(before: map<nat, Bullet>, bullets: map<nat, Bullet>, first: nat, now: map<nat, Player>,
                after: map<nat, Player>, a: nat, b: nat, dt: real, root: Root, id: nat)
    requires OldBullets(before, bullets, first, now, after, a, b, dt, root) && BothAlive(after, a, b)
    requires id in before
    ensures id < first && Other(a, b, before[id].owner) in now
    ensures id in bullets <==> FliesOn(before[id], now[Other(a, b, before[id].owner)], dt, root)
    ensures id in bullets ==> bullets[id] == Fly(before[id], dt, root)
  {
    hide FliesOn, Fly, Spent;
    assert OldBullet(before[id], id, bullets, now, after, a, b, dt, root);
  }

  lemma OldCounterpart(ren: map<nat, nat>, xs0: map<nat, Bullet>, xs: map<nat, Bullet>, first1: nat,
                       ys0: map<nat, Bullet>, ys: map<nat, Bullet>, first2: nat,
                       now: map<nat, Player>, after: map<nat, Player>, a: nat, b: nat, dt: real, root: Root, i: nat)
    requires Renames(ren, xs0, ys0) && BothAlive(after, a, b) && i in xs0
    requires OldBullets(xs0, xs, first1, now, after, a, b, dt, root)
    requires OldBullets(ys0, ys, first2, now, after, a, b, dt, root)
    ensures i < first1 && ren[i] < first2 && (i in xs <==> ren[i] in ys) && (i in xs ==> xs[i] == ys[ren[i]])
  {
    hide FliesOn, Fly, Spent, OldBullets;
    OldFate(xs0, xs, first1, now, after, a, b, dt, root, i);
    OldFate(ys0, ys, first2, now, after, a, b, dt, root, ren[i]);
  }

  lemma NewCounterpart(xs: map<nat, Bullet>, first1: nat, ys: map<nat, Bullet>, first2: nat, now: map<nat, Player>,
                       a: nat, b: nat, root: Root, i: nat)
    requires NewBullets(xs, first1, now, a, b, root) && NewBullets(ys, first2, now, a, b, root) && i in xs
    requires first1 <= i
    ensures HasNew(ys, first2, xs[i].owner)
    ensures
      var j := NewOf(ys, first2, xs[i].owner);
      xs[i] == ys[j] && forall k | k in ys && first2 <= k && ys[k].owner == xs[i].owner :: k == j
  {
    hide ShotAt, Fires, HasNew;
    assert IsShot(xs[i], now, a, b, root);
    var j := NewOf(ys, first2, xs[i].owner);
    assert IsShot(ys[j], now, a, b, root);
    forall k | k in ys && first2 <= k && k != j ensures ys[k].owner != ys[j].owner {
      NewDiffer(ys, first2, now, a, b, root, k, j);
    }
  }

  lemma NewDiffer(xs: map<nat, Bullet>, first: nat, now: map<nat, Player>, a: nat, b: nat, root: Root, i: nat, j: nat)
    requires NewBullets(xs, first, now, a, b, root) && i in xs && j in xs && first <= i && first <= j && i != j
    ensures xs[i].owner != xs[j].owner && xs[i] != xs[j]
  {
    assert i < j || j < i;
  }

  /** Where bullet `i` goes: an old one where it went before, a new one to a new one. */
  ghost predicate Goes(ren: map<nat, nat>, next: map<nat, nat>, xs: map<nat, Bullet>, first1: nat,
                       ys: map<nat, Bullet>, first2: nat, i: nat)
  {
    && i in next && i in xs && next[i] in ys && ys[next[i]] == xs[i]
    && (if i < first1 then i in ren && next[i] == ren[i] && next[i] < first2 else first2 <= next[i])
  }

  lemma NextGoes(ren: map<nat, nat>, xs0: map<nat, Bullet>, xs: map<nat, Bullet>, first1: nat,
                 ys0: map<nat, Bullet>, ys: map<nat, Bullet>, first2: nat,
                 now: map<nat, Player>, after: map<nat, Player>, a: nat, b: nat, dt: real, root: Root, i: nat)
    requires Renames(ren, xs0, ys0) && BothAlive(after, a, b) && i in xs
    requires Side(xs0, xs, first1, now, after, a, b, dt, root) && Side(ys0, ys, first2, now, after, a, b, dt, root)
    ensures Goes(ren, Renamed(ren, xs, first1, ys, first2), xs, first1, ys, first2, i)
  {
    hide NewBullets, HasNew, OldBullet;
    if i < first1 {
      OldCounterpart(ren, xs0, xs, first1, ys0, ys, first2, now, after, a, b, dt, root, i);
    } else {
      NewCounterpart(xs, first1, ys, first2, now, a, b, root, i);
    }
  }

  lemma NextOnto(ren: map<nat, nat>, xs0: map<nat, Bullet>, xs: map<nat, Bullet>, first1: nat,
                 ys0: map<nat, Bullet>, ys: map<nat, Bullet>, first2: nat,
                 now: map<nat, Player>, after: map<nat, Player>, a: nat, b: nat, dt: real, root: Root, k: nat)
    requires Renames(ren, xs0, ys0) && BothAlive(after, a, b) && k in ys
    requires Side(xs0, xs, first1, now, after, a, b, dt, root) && Side(ys0, ys, first2, now, after, a, b, dt, root)
    ensures exists i :: i in xs && Renamed(ren, xs, first1, ys, first2)[i] == k
  {
    hide NewBullets, HasNew, OldBullet;
    var next := Renamed(ren, xs, first1, ys, first2);
    if k < first2 {
      assert k in ys0;
      var i :| i in xs0 && ren[i] == k;
      OldCounterpart(ren, xs0, xs, first1, ys0, ys, first2, now, after, a, b, dt, root, i);
      assert i in xs && next[i] == k;
    } else {
      NewCounterpart(ys, first2, xs, first1, now, a, b, root, k);
      var i := NewOf(xs, first1, ys[k].owner);
      NewCounterpart(xs, first1, ys, first2, now, a, b, root, i);
      assert i in xs && next[i] == k;
    }
  }

  lemma RenamesNext(ren: map<nat, nat>, xs0: map<nat, Bullet>, xs: map<nat, Bullet>, first1: nat,
                    ys0: map<nat, Bullet>, ys: map<nat, Bullet>, first2: nat,
                    now: map<nat, Player>, after: map<nat, Player>, a: nat, b: nat, dt: real, root: Root)
    requires Renames(ren, xs0, ys0) && BothAlive(after, a, b)
    requires Side(xs0, xs, first1, now, after, a, b, dt, root) && Side(ys0, ys, first2, now, after, a, b, dt, root)
    ensures Renames(Renamed(ren, xs, first1, ys, first2), xs, ys)
  {
    var next := Renamed(ren, xs, first1, ys, first2);
    assert next.Keys == xs.Keys;
    hide NewBullets, OldBullets, Renamed, Goes, Renames;
    forall i | i in xs ensures Goes(ren, next, xs, first1, ys, first2, i) {
      NextGoes(ren, xs0, xs, first1, ys0, ys, first2, now, after, a, b, dt, root, i);
    }
    forall k | k in ys ensures exists i :: i in xs && next[i] == k {
      NextOnto(ren, xs0, xs, first1, ys0, ys, first2, now, after, a, b, dt, root, k);
    }
    assert NewBullets(xs, first1, now, a, b, root);
    GoesRenames(ren, next, xs0, ys0, xs, first1, ys, first2, now, a, b, root);
  }

  lemma GoesRenames(ren: map<nat, nat>, next: map<nat, nat>, xs0: map<nat, Bullet>, ys0: map<nat, Bullet>,
                    xs: map<nat, Bullet>, first1: nat, ys: map<nat, Bullet>, first2: nat,
                    now: map<nat, Player>, a: nat, b: nat, root: Root)
    requires Renames(ren, xs0, ys0) && NewBullets(xs, first1, now, a, b, root) && next.Keys == xs.Keys
    requires forall i | i in xs :: Goes(ren, next, xs, first1, ys, first2, i)
    requires forall k | k in ys :: exists i :: i in xs && next[i] == k
    ensures Renames(next, xs, ys)
  {
    hide NewBullets, Goes;
    forall i, j | i in xs && j in xs && i != j ensures next[i] != next[j] {
      if first1 <= i && first1 <= j {
        NewDiffer(xs, first1, now, a, b, root, i, j);
      }
      StaysApart(ren, next, xs0, ys0, xs, first1, ys, first2, i, j);
    }
    forall i | i in xs ensures next[i] in ys && ys[next[i]] == xs[i] {
      GoesMeans(ren, next, xs, first1, ys, first2, i);
    }
  }

  lemma GoesMeans(ren: map<nat, nat>, next: map<nat, nat>, xs: map<nat, Bullet>, first1: nat, ys: map<nat, Bullet>,
                  first2: nat, i: nat)
    requires Goes(ren, next, xs, first1, ys, first2, i)
    ensures i in next && i in xs && next[i] in ys && ys[next[i]] == xs[i]
  {
  }

  lemma StaysApart(ren: map<nat, nat>, next: map<nat, nat>, xs0: map<nat, Bullet>, ys0: map<nat, Bullet>,
                   xs: map<nat, Bullet>, first1: nat, ys: map<nat, Bullet>, first2: nat, i: nat, j: nat)
    requires Renames(ren, xs0, ys0) && i != j
    requires Goes(ren, next, xs, first1, ys, first2, i) && Goes(ren, next, xs, first1, ys, first2, j)
    requires first1 <= i && first1 <= j ==> xs[i] != xs[j]
    ensures next[i] != next[j]
  {
    assert i in ren ==> i in xs0.Keys;
    assert j in ren ==> j in xs0.Keys;
  }

  // ---------------------------------------------------------------- twin battles

  /** Two battles that look the same: equal players, and bullets equal but for their ids while
      both players live. */
  ghost predicate Twins(x: Battle, y: Battle, p: nat, q: nat) {
    && p != 0 && q != 0 && DuelOk(x, p, q) && DuelOk(y, p, q)
    && x.tick == y.tick && x.ended == y.ended && x.sim.players == y.sim.players
    && (BothAlive(x.sim.players, p, q) ==> exists ren :: Renames(ren, x.sim.bullets, y.sim.bullets))
  }

  lemma SameHealth(x: Battle, o: Orders, y: Battle, u: Orders, root: Root, p: nat, q: nat, v: nat)
    requires Twins(x, y, p, q) && !x.ended && OrdersFit(x, o, root) && OrdersFit(y, u, root) && (v == p || v == q)
    ensures v in Stepped(x, o, root).players && v in Stepped(y, u, root).players
    ensures Stepped(x, o, root).players[v].hp == Stepped(y, u, root).players[v].hp
  {
    hide Step, Lists, Threats, AllInside, Renames, StandAt, IdsBelow;
    var w := Other(p, q, v);
    assert {w, v} == {p, q};
    Sided(x, o, root, p, q);
    Sided(y, u, root, p, q);
    HealthAfterStep(x.sim, TICK_MS, o.players, o.bullets, root, w, v);
    HealthAfterStep(y.sim, TICK_MS, u.players, u.bullets, root, w, v);
    var stand := StandAt(x.sim, TICK_MS, root, v);
    StandsByPlayers(x.sim, y.sim, root, v);
    if BothAlive(x.sim.players, p, q) {
      var ren :| Renames(ren, x.sim.bullets, y.sim.bullets);
      SameThreats(ren, x.sim.bullets, y.sim.bullets, v, stand, TICK_MS as real / 1000.0);
    }
  }

  lemma Sided(x: Battle, o: Orders, root: Root, p: nat, q: nat)
    requires DuelOk(x, p, q) && OrdersFit(x, o, root)
    ensures Lists(o.players, x.sim.players.Keys) && Lists(o.bullets, x.sim.bullets.Keys)
    ensures IdsBelow(x.sim.bullets, x.sim.nextId) && HpOk(x.sim.players)
  {
    hide Step, Lists;
  }

  lemma StandsByPlayers(s: Sim, t: Sim, root: Root, v: nat)
    requires s.players == t.players && v in s.players
    ensures StandAt(s, TICK_MS, root, v) == StandAt(t, TICK_MS, root, v)
  {
    hide Prepare;
  }

  lemma SamePlayers(now: map<nat, Player>, x: map<nat, Player>, y: map<nat, Player>)
    requires PlayersAfter(now, x) && PlayersAfter(now, y)
    requires forall v | v in now :: v in x && v in y && x[v].hp == y[v].hp
    ensures x == y
  {
    hide Fires;
    assert x.Keys == y.Keys;
    forall v | v in x ensures x[v] == y[v] {
      assert v in now.Keys;
    }
  }

  lemma WinnerByPlayers(s: Sim, t: Sim)
    requires s.players == t.players
    ensures Winner(s) == Winner(t)
  {
    if w: nat :| AliveIds(s.players) == {w} {
      assert Winner(s) in AliveIds(s.players) && Winner(t) in AliveIds(t.players);
    }
  }

  lemma TickTwins(x: Battle, o: Orders, y: Battle, u: Orders, root: Root, p: nat, q: nat)
    requires IsRoot(root) && Twins(x, y, p, q) && !x.ended && OrdersFit(x, o, root) && OrdersFit(y, u, root)
    ensures Twins(Ticked(x, o, root), Ticked(y, u, root), p, q)
  {
    hide IsRoot, OrdersFit, Stepped, Renames, Prepare, PlayersAfter, NewBullets, OldBullets, DuelOk, Winner, IdsBelow;
    Sided(x, o, root, p, q);
    Sided(y, u, root, p, q);
    TickDuelOk(x, o, root, p, q);
    TickDuelOk(y, u, root, p, q);
    var now, dt := Prepare(x.sim.players, TICK_MS, root), TICK_MS as real / 1000.0;
    var r, t := Stepped(x, o, root), Stepped(y, u, root);
    forall v | v in now ensures v in r.players && v in t.players && r.players[v].hp == t.players[v].hp {
      InDuel(x, p, q, root, v);
      SameHealth(x, o, y, u, root, p, q, v);
    }
    SamePlayers(now, r.players, t.players);
    WinnerByPlayers(TakeRemoved(r).0, TakeRemoved(t).0);
    if BothAlive(r.players, p, q) {
      AliveBefore(x, o, root, p, q);
      var ren :| Renames(ren, x.sim.bullets, y.sim.bullets);
      RenamesNext(ren, x.sim.bullets, r.bullets, x.sim.nextId, y.sim.bullets, t.bullets, y.sim.nextId, now, r.players,
        p, q, dt, root);
    }
  }

  lemma InDuel(x: Battle, p: nat, q: nat, root: Root, v: nat)
    requires DuelOk(x, p, q) && v in Prepare(x.sim.players, TICK_MS, root)
    ensures v == p || v == q
  {
    hide Prepare, OwnersAre, HpOk, AllInside;
    PrepareFacts(x.sim.players, TICK_MS, root);
    assert v in x.sim.players.Keys;
  }

  lemma AliveBefore(x: Battle, o: Orders, root: Root, p: nat, q: nat)
    requires DuelOk(x, p, q) && OrdersFit(x, o, root) && BothAlive(Stepped(x, o, root).players, p, q)
    ensures BothAlive(x.sim.players, p, q)
  {
    hide Step, Lists, OwnersAre, HpOk;
    StepFacts(x.sim, TICK_MS, o.players, o.bullets, root);
  }

  lemma InputTwins(x: Battle, y: Battle, pid: nat, i: Input, p: nat, q: nat)
    requires Twins(x, y, p, q)
    ensures Twins(x.(sim := ApplyInput(x.sim, pid, i)), y.(sim := ApplyInput(y.sim, pid, i)), p, q)
  {
    hide Renames;
    InputDuelOk(x, pid, i, p, q);
    InputDuelOk(y, pid, i, p, q);
    hide DuelOk;
  }

  lemma InputDuelOk(x: Battle, pid: nat, i: Input, p: nat, q: nat)
    requires DuelOk(x, p, q)
    ensures DuelOk(x.(sim := ApplyInput(x.sim, pid, i)), p, q)
  {
  }

  /** The same events, but for the orders of the ticks. */
  predicate SameButOrders(es: seq<Event>, fs: seq<Event>) {
    && |es| == |fs|
    && (forall k | 0 <= k < |es| :: es[k] == fs[k] || (es[k].Tick? && fs[k].Tick?))
  }

  lemma EventTwins(x: Battle, e: Event, y: Battle, f: Event, root: Root, p: nat, q: nat)
    requires IsRoot(root) && Twins(x, y, p, q) && (e == f || (e.Tick? && f.Tick?))
    requires Possible(x, e, root) && Possible(y, f, root)
    ensures Twins(Happen(x, e, root), Happen(y, f, root), p, q)
  {
    hide IsRoot, OrdersFit, Ticked, ApplyInput, DuelOk, Renames;
    if !x.ended {
      if e.Tick? {
        TickTwins(x, e.orders, y, f.orders, root, p, q);
      } else {
        InputTwins(x, y, e.pid, e.input, p, q);
      }
    }
  }

  lemma SameTail(es: seq<Event>, fs: seq<Event>)
    requires SameButOrders(es, fs) && es != []
    ensures fs != [] && (es[0] == fs[0] || (es[0].Tick? && fs[0].Tick?)) && SameButOrders(es[1..], fs[1..])
  {
  }

  lemma {:induction false} RunTwins(x: Battle, es: seq<Event>, y: Battle, fs: seq<Event>, root: Root, p: nat, q: nat)
    requires IsRoot(root) && Twins(x, y, p, q) && SameButOrders(es, fs) && ValidRun(x, es, root)
    requires ValidRun(y, fs, root)
    ensures Twins(Play(x, es, root), Play(y, fs, root), p, q)
    decreases |es|
  {
    if es != [] {
      SameTail(es, fs);
      hide IsRoot, Twins, Happen, Possible, SameButOrders;
      EventTwins(x, es[0], y, fs[0], root, p, q);
      RunTwins(Happen(x, es[0], root), es[1..], Happen(y, fs[0], root), fs[1..], root, p, q);
    }
  }

  /**
   Order independence over whole battles.  Two battles between the same two players with the
   same inputs at the same ticks, each walking its hash maps in whatever orders it likes, are
   at every moment at the same tick, with equal players (position, health and all), both
   ended or both not; and while both players live, their bullets are the same but for ids.
   */
  lemma OrdersNeverMatter(p: nat, q: nat, es: seq<Event>, fs: seq<Event>, root: Root)
    requires IsRoot(root) && p != q && p != 0 && q != 0 && SameButOrders(es, fs)
    requires ValidRun(NewBattle(p, q), es, root) && ValidRun(NewBattle(p, q), fs, root)
    ensures
      var x, y := Play(NewBattle(p, q), es, root), Play(NewBattle(p, q), fs, root);
      && x.tick == y.tick && x.ended == y.ended && x.sim.players == y.sim.players
      && (BothAlive(x.sim.players, p, q) ==> exists ren :: Renames(ren, x.sim.bullets, y.sim.bullets))
  {
    NewDuelOk(p, q);
    assert Renames(map[], NewBattle(p, q).sim.bullets, NewBattle(p, q).sim.bullets);
    hide IsRoot, ValidRun, Play, DuelOk, Renames;
    RunTwins(NewBattle(p, q), es, NewBattle(p, q), fs, root, p, q);
  }
}
