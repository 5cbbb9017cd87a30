/**
 When a player shoots.  Over every run of a battle the weapon's heat is read off the ticks
 since the last shot, and the input in force is the latest one that arrived; so who fires in
 a tick is decided by the events alone.
 */
module FireCadence {
  import opened Prelude
  import opened SimModel
  import opened SimFacts
  import opened Duel
  import opened DuelRuns
  import opened BulletRuns
  import opened Replication

  /** A weapon cools by 50 a tick from 500, down to nothing; one never fired is cold. */
  ghost predicate Cooled(c: Chronicle) {
    forall p | p in c.b.sim.players :: CooledOne(c, p)
  }

  ghost predicate CooledOne(c: Chronicle, p: nat) {
    && p in c.b.sim.players
    && if p in c.lastShot then
        && c.lastShot[p] <= c.b.tick
        && c.b.sim.players[p].cd == MaxReal(0.0, 500.0 - 50.0 * (c.b.tick - c.lastShot[p]) as real)
      else c.b.sim.players[p].cd == 0.0
  }

  /** Whoever flies on stays in the arena and within range. */
  ghost predicate Contained(c: Chronicle) {
    forall id | id in c.b.sim.bullets :: ContainedOne(c, id)
  }

  ghost predicate ContainedOne(c: Chronicle, id: nat) {
    && id in c.b.sim.bullets && id in c.births
    && var b := c.b.sim.bullets[id];
       c.births[id] < c.b.tick ==> 0.0 <= b.x <= 100.0 && 0.0 <= b.y <= 100.0 && b.traveled < 65.0
  }

  /** The input of `p` that arrived last, `cur` if none did. */
  function LatestInput(es: seq<Event>, p: nat, cur: Option<Input>): Option<Input> {
    if es == [] then cur
    else LatestInput(es[1..], p, if es[0].GotInput? && es[0].pid == p then Some(es[0].input) else cur)
  }

  // ---------------------------------------------------------------- one tick

  lemma CoolsOn(c: Chronicle, c': Chronicle, s: Sim, r: Sim, p: nat)
    requires Cooled(c) && TickOf(c, c', s, r) && p in r.players
    ensures CooledOne(c', p)
  {
    hide Unit, FlewOn, Written, NewRange, OneShotEach;
    TickIs(c, c', s, r);
    LastShotFor(c, c', s, r, p);
    assert p in s.players.Keys;
    if p in Shooters(s, r) {
      var id :| id in NewIds(s, r) && r.bullets[id].owner == p;
      assert WasFired(s, r, id);
    } else {
      assert CooledOne(c, p);
      if p in c.lastShot {
        assert (c'.b.tick - c'.lastShot[p]) as real == (c.b.tick - c.lastShot[p]) as real + 1.0;
      }
    }
  }

  lemma NotSpent(s: Sim, r: Sim, a: nat, b: nat, root: Root, id: nat)
    requires DuelStep(s, r, a, b, TICK_MS, root) && id in r.bullets && id < s.nextId && id in s.bullets
    ensures !Spent(r.bullets[id])
  {
    hide Spent, Fly, PlayersAfter, NewBullets, FliesOn, Prepare, IdsBelow;
    assert OldBullet(s.bullets[id], id, r.bullets, Prepare(s.players, TICK_MS, root), r.players, a, b,
      TICK_MS as real / 1000.0, root);
  }

  lemma StaysInside(c: Chronicle, c': Chronicle, s: Sim, r: Sim, a: nat, b: nat, root: Root, id: nat)
    requires BirthsKnown(c) && TickOf(c, c', s, r) && DuelStep(s, r, a, b, TICK_MS, root) && id in r.bullets
    ensures ContainedOne(c', id)
  {
    hide Unit, WasFired, Written, NewIds, DuelStep, OneShotEach, OthersCool, BirthsKnown, BornBy;
    TickIs(c, c', s, r);
    OwnerAfter(c, c', s, r, id);
    BirthOf(c, c', s, r, id);
    if id < s.nextId {
      assert FlewOn(s, r, id);
      NotSpent(s, r, a, b, root, id);
    }
  }

  lemma TickKeeps(c: Chronicle, o: Orders, root: Root, a: nat, b: nat)
    requires IsRoot(root) && OrdersFit(c.b, o, root) && Good(c, a, b) && Cooled(c)
    ensures Cooled(Record(c, o, root)) && Contained(Record(c, o, root))
  {
    hide IsRoot, OrdersFit, Record, LedgerOk, HealthOk, DuelOk, BirthsOk, Aimed, Few, TickOf, DuelStep, Stepped, Cooled,
      CooledOne, ContainedOne;
    RecordTick(c, o, root, a, b);
    OrdersLists(c.b, o, root);
    BirthsParts(c);
    var c', s, r := Record(c, o, root), c.b.sim, Stepped(c.b, o, root);
    SameSim(c, c', s, r);
    forall p | p in c'.b.sim.players ensures CooledOne(c', p) {
      CoolsOn(c, c', s, r, p);
    }
    AllCooled(c');
    forall id | id in c'.b.sim.bullets ensures ContainedOne(c', id) {
      StaysInside(c, c', s, r, a, b, root, id);
    }
  }

  lemma SameSim(c: Chronicle, c': Chronicle, s: Sim, r: Sim)
    requires TickOf(c, c', s, r)
    ensures c'.b.sim.players == r.players && c'.b.sim.bullets == r.bullets
  {
  }

  lemma AllCooled(c: Chronicle)
    requires forall p | p in c.b.sim.players :: CooledOne(c, p)
    ensures Cooled(c)
  {
  }

  lemma InputsStay(c: Chronicle, o: Orders, root: Root, a: nat, b: nat, p: nat)
    requires IsRoot(root) && OrdersFit(c.b, o, root) && Good(c, a, b) && p in c.b.sim.players
    ensures p in Record(c, o, root).b.sim.players
    ensures Record(c, o, root).b.sim.players[p].input == c.b.sim.players[p].input
  {
    hide IsRoot, OrdersFit, Record, LedgerOk, HealthOk, DuelOk, BirthsOk, Aimed, Few, TickOf, Stepped, NewBullets,
      OldBullets, IdsBelow, Prepare, Fires;
    RecordTick(c, o, root, a, b);
    OrdersLists(c.b, o, root);
    SameSim(c, Record(c, o, root), c.b.sim, Stepped(c.b, o, root));
    PrepareFacts(c.b.sim.players, TICK_MS, root);
    assert p in Prepare(c.b.sim.players, TICK_MS, root).Keys;
  }

  /** Who fires in a tick is decided by life, trigger and a cold weapon. */
  lemma ShootsIffFires(s: Sim, r: Sim, a: nat, b: nat, root: Root, p: nat)
    requires DuelStep(s, r, a, b, TICK_MS, root) && p in s.players
    ensures p in Shooters(s, r) <==>
      && s.players[p].hp > 0 && s.players[p].input.Some? && s.players[p].input.value.attack
      && s.players[p].cd <= 50.0
  {
    hide OldBullets, Prepare, IdsBelow, ShotAt;
    PrepareFacts(s.players, TICK_MS, root);
    PreparedCooldown(s.players, root, p);
    NewShoots(s, r, p);
    var now := Prepare(s.players, TICK_MS, root);
    assert Fires(now[p]) ==> HasNew(r.bullets, s.nextId, p);
    if p in Shooters(s, r) {
      var id :| id in NewIds(s, r) && r.bullets[id].owner == p;
      assert IsShot(r.bullets[id], now, a, b, root);
    }
  }

  // ---------------------------------------------------------------- runs

  lemma InputCools(c: Chronicle, pid: nat, i: Input)
    requires Cooled(c) && Contained(c)
    ensures Cooled(WithInput(c, pid, i)) && Contained(WithInput(c, pid, i))
  {
    hide ApplyInput;
    InputKeeps(c.b.sim, pid, i);
    var c' := WithInput(c, pid, i);
    forall p | p in c'.b.sim.players ensures CooledOne(c', p) {
      assert p in c.b.sim.players.Keys && CooledOne(c, p);
    }
    forall id | id in c'.b.sim.bullets ensures ContainedOne(c', id) {
      assert ContainedOne(c, id);
    }
  }

  lemma {:induction false} EndedForGood(c: Chronicle, es: seq<Event>, root: Root)
    requires ValidChronicle(c, es, root) && c.b.ended
    ensures Tell(c, es, root) == c
    decreases |es|
  {
    if es != [] {
      hide OrdersFit;
      EndedForGood(c, es[1..], root);
    }
  }

  lemma EventCools(c: Chronicle, e: Event, root: Root, a: nat, b: nat, p: nat)
    requires IsRoot(root) && Good(c, a, b) && Possible(c.b, e, root) && Cooled(c) && Contained(c)
    requires p in c.b.sim.players && !c.b.ended
    ensures
      var c' := Chronicled(c, e, root);
      && Good(c', a, b) && Cooled(c') && Contained(c') && p in c'.b.sim.players
      && c'.b.sim.players[p].input ==
        if e.GotInput? && e.pid == p then Some(e.input) else c.b.sim.players[p].input
  {
    hide IsRoot, Good, Record, OrdersFit, Cooled, Contained;
    match e {
      case GotInput(pid, i) =>
        InputGood(c, pid, i, a, b);
        InputCools(c, pid, i);
      case Tick(o) =>
        RecordGood(c, o, root, a, b);
        TickKeeps(c, o, root, a, b);
        InputsStay(c, o, root, a, b, p);
    }
  }

  lemma {:induction false} RunCools(c: Chronicle, es: seq<Event>, root: Root, a: nat, b: nat, p: nat)
    requires IsRoot(root) && Good(c, a, b) && ValidChronicle(c, es, root) && Cooled(c) && Contained(c)
    requires p in c.b.sim.players
    ensures
      var c' := Tell(c, es, root);
      && Good(c', a, b) && Cooled(c') && Contained(c') && p in c'.b.sim.players
      && (!c'.b.ended ==> c'.b.sim.players[p].input == LatestInput(es, p, c.b.sim.players[p].input))
    decreases |es|
  {
    if es != [] {
      if c.b.ended {
        EndedForGood(c, es, root);
      } else {
        EventCools(c, es[0], root, a, b, p);
        hide IsRoot, Good, Cooled, Contained, Chronicled, Possible;
        RunCools(Chronicled(c, es[0], root), es[1..], root, a, b, p);
      }
    }
  }

  lemma BeginCools(a: nat, b: nat)
    requires a != b
    ensures Good(Begin(a, b), a, b) && Cooled(Begin(a, b)) && Contained(Begin(a, b))
    ensures a in Begin(a, b).b.sim.players && b in Begin(a, b).b.sim.players
    ensures forall p | p in Begin(a, b).b.sim.players :: Begin(a, b).b.sim.players[p].input == None
  {
    BeginGood(a, b);
    hide Good;
    var c := Begin(a, b);
    forall p | p in c.b.sim.players ensures CooledOne(c, p) {
    }
  }

  /**
   Who shoots.  After any run of a battle that has not ended, in the next tick player `p`
   fires if and only if it is alive, the latest input that arrived from it asks for an attack,
   and it has never fired or at least ten ticks have gone by since it last did.  The bullets
   that were there before the tick began are inside the arena and have gone less than 65.
   */
  lemma FiresIff(a: nat, b: nat, es: seq<Event>, root: Root, o: Orders, p: nat)
    requires a != b && IsRoot(root) && ValidChronicle(Begin(a, b), es, root) && (p == a || p == b)
    requires
      var c := Tell(Begin(a, b), es, root);
      !c.b.ended && OrdersFit(c.b, o, root)
    ensures
      var c := Tell(Begin(a, b), es, root);
      var i := LatestInput(es, p, None);
      && p in c.b.sim.players
      && (p in Shooters(c.b.sim, Stepped(c.b, o, root)) <==>
        && c.b.sim.players[p].hp > 0 && i.Some? && i.value.attack
        && (p in c.lastShot ==> c.b.tick + 1 >= c.lastShot[p] + 10))
    ensures Contained(Tell(Begin(a, b), es, root))
  {
    BeginCools(a, b);
    hide IsRoot, ValidChronicle, Tell, Good, Begin, Cooled, Contained, OrdersFit, DuelStep, Stepped, Shooters;
    RunCools(Begin(a, b), es, root, a, b, p);
    var c := Tell(Begin(a, b), es, root);
    DuelHolds(c, o, root, a, b);
    ShootsIffFires(c.b.sim, Stepped(c.b, o, root), a, b, root, p);
    ColdMeans(c, p);
  }

  lemma DuelHolds(c: Chronicle, o: Orders, root: Root, a: nat, b: nat)
    requires IsRoot(root) && OrdersFit(c.b, o, root) && Good(c, a, b)
    ensures Lists(o.players, c.b.sim.players.Keys) && Lists(o.bullets, c.b.sim.bullets.Keys)
    ensures DuelStep(c.b.sim, Stepped(c.b, o, root), a, b, TICK_MS, root)
  {
    hide IsRoot, OrdersFit, Record, LedgerOk, HealthOk, DuelOk, BirthsOk, Aimed, Few, TickOf, DuelStep, Stepped;
    OrdersLists(c.b, o, root);
    RecordTick(c, o, root, a, b);
  }

  lemma ColdMeans(c: Chronicle, p: nat)
    requires Cooled(c) && p in c.b.sim.players
    ensures c.b.sim.players[p].cd <= 50.0 <==> (p in c.lastShot ==> c.b.tick + 1 >= c.lastShot[p] + 10)
  {
    assert CooledOne(c, p);
    if p in c.lastShot {
      var k := c.b.tick - c.lastShot[p];
      assert 500.0 - 50.0 * k as real <= 50.0 <==> k >= 9;
    }
  }
}
