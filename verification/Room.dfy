/**
 A room as it is programmed: the simulation it owns, the connections of its two players and
 what it sends them.  The lobby's protocol sees only part of it, the simulation's runs
 another; here both come from the same methods.
 */
module RoomModel {
  import opened Prelude
  import opened Lobby
  import opened LobbyInv
  import M = SimModel
  import R = Replication
  import S = Snapshots

  datatype Packet = Enter(rid: nat, players: seq<nat>) | Snap(snap: S.Snapshot) | BattleEnd(winner: nat)

  /** What was sent to each seat, and over which connection. */
  type Log = map<nat, seq<(Conn, Packet)>>

  /** One packet to everybody who has a connection. */
  function Told(log: Log, conns: map<nat, Option<Conn>>, p: Packet): (r: Log)
    requires log.Keys == conns.Keys
    ensures r.Keys == conns.Keys
  {
    map pid | pid in conns :: if conns[pid].Some? then log[pid] + [(conns[pid].value, p)] else log[pid]
  }

  /** The same while the seats in `todo` have not been served yet. */
  ghost function ToldSome(log: Log, conns: map<nat, Option<Conn>>, p: Packet, todo: set<nat>): (r: Log)
    requires log.Keys == conns.Keys
  {
    map pid | pid in conns :: if pid in todo then log[pid] else Told(log, conns, p)[pid]
  }

  lemma ToldAtEnds(log: Log, conns: map<nat, Option<Conn>>, p: Packet)
    requires log.Keys == conns.Keys
    ensures ToldSome(log, conns, p, conns.Keys) == log && ToldSome(log, conns, p, {}) == Told(log, conns, p)
  {
  }

  lemma TellOneMore(log: Log, conns: map<nat, Option<Conn>>, p: Packet, todo: set<nat>, pid: nat)
    requires log.Keys == conns.Keys && pid in todo && pid in conns
    ensures
      var before, after := ToldSome(log, conns, p, todo), ToldSome(log, conns, p, todo - {pid});
      && pid in before
      && after == if conns[pid].Some? then before[pid := before[pid] + [(conns[pid].value, p)]] else before
  {
  }

  // ---------------------------------------------------------------- what the seats are sent

  /** A room as its players see it: the battle, their connections, what each seat was sent,
      and whether the room has started. */
  datatype Seats = Seats(id: nat, b: R.Battle, conns: map<nat, Option<Conn>>, log: Log, started: bool)

  predicate Listable(h: Seats, players: seq<nat>, bullets: seq<nat>) {
    M.Lists(players, h.b.sim.players.Keys) && M.Lists(bullets, h.b.sim.bullets.Keys)
  }

  function NewSeats(id: nat, a: nat, ca: Option<Conn>, b: nat, cb: Option<Conn>): Seats {
    Seats(id, R.NewBattle(a, b), map[a := ca, b := cb], map[a := [], b := []], false)
  }

  /** Everybody is told the members, then the whole battle. */
  function StartSeats(h: Seats, players: seq<nat>, bullets: seq<nat>): Seats
    requires h.log.Keys == h.conns.Keys && Listable(h, players, bullets)
  {
    var entered := Told(h.log, h.conns, Enter(h.id, players));
    h.(log := Told(entered, h.conns, Snap(R.FullSnapshot(h.b, players, bullets))), started := true)
  }

  /** A returning player is told the members and the whole battle. */
  function RebindSeats(h: Seats, pid: nat, c: Conn, players: seq<nat>, bullets: seq<nat>): Seats
    requires h.log.Keys == h.conns.Keys && Listable(h, players, bullets)
  {
    if pid !in h.conns then h
    else
      var full := R.FullSnapshot(h.b, players, bullets);
      h.(conns := h.conns[pid := Some(c)],
         log := h.log[pid := h.log[pid] + [(c, Enter(h.id, players)), (c, Snap(full))]])
  }

  function DropSeats(h: Seats, pid: nat): Seats {
    if pid in h.conns then h.(conns := h.conns[pid := None]) else h
  }

  function InputSeats(h: Seats, pid: nat, i: M.Input): Seats {
    if h.b.ended then h else h.(b := h.b.(sim := M.ApplyInput(h.b.sim, pid, i)))
  }

  function EndSeats(h: Seats, winner: nat): Seats
    requires h.log.Keys == h.conns.Keys
  {
    if h.b.ended then h else h.(b := h.b.(ended := true), log := Told(h.log, h.conns, BattleEnd(winner)))
  }

  /** What each seat has been sent after a tick. */
  function TickLog(log: Log, conns: map<nat, Option<Conn>>, delta: Option<S.Snapshot>, winner: nat): Log
    requires log.Keys == conns.Keys
  {
    var l := if delta.Some? then Told(log, conns, Snap(delta.value)) else log;
    if winner != 0 then Told(l, conns, BattleEnd(winner)) else l
  }

  /** One tick: what changed is broadcast, and the end if there is a winner. */
  ghost function TickSeats(h: Seats, o: R.Orders, root: M.Root): Seats
    requires h.log.Keys == h.conns.Keys && (!h.b.ended ==> R.OrdersFit(h.b, o, root))
  {
    if h.b.ended then h
    else
      var b := R.Ticked(h.b, o, root);
      h.(b := b, log := TickLog(h.log, h.conns, R.Delta(h.b, o, root), M.Winner(b.sim)))
  }

  // ---------------------------------------------------------------- what the protocol sees

  /** A tick, as the protocol sees it. */
  function TickView(v: Room, delta: bool, winner: nat): Room {
    if v.ended then v
    else
      var v1 := AfterDelta(v, delta);
      if winner != 0 then AfterEnd(v1, winner) else v1
  }

  /** The lobby is told exactly when a battle goes from not ended to ended. */
  function Notices(before: Room, after: Room, rid: nat, winner: nat): seq<RoomEnd> {
    if !before.ended && after.ended then [RoomEnd(rid, winner)] else []
  }

  /** This is the protocol's room tick, seen from the room. */
  lemma TickIsStep(st: System, rid: nat, delta: bool, winner: nat)
    requires Sane(st) && rid in st.rooms
    ensures
      var v, st' := st.rooms[rid], TickRoom(st, rid, delta, winner);
      && st'.rooms == st.rooms[rid := TickView(v, delta, winner)]
      && st'.inbox == st.inbox + Notices(v, TickView(v, delta, winner), rid, winner)
  {
    hide Sane;
    var v := st.rooms[rid];
    if v.ended {
      assert st.rooms[rid := v] == st.rooms;
    } else {
      TickIsAfterDelta(st, rid, delta, winner);
      hide TickRoom;
      assert st.inbox + [] == st.inbox;
    }
  }

  lemma BindsOne(conns: map<nat, Option<Conn>>, pid: nat, c: Conn)
    ensures Bind(Rebind(pid, c), conns) == if pid in conns then conns[pid := Some(c)] else conns
    ensures Bind(Drop(pid), conns) == if pid in conns then conns[pid := None] else conns
  {
  }
}

module Room {
  import opened Prelude
  import opened Lobby
  import opened LobbyInv
  import opened RoomModel
  import opened SimModel
  import R = Replication
  import S = Snapshots
  import BattleSim

  class Room {
    const id: nat
    const a: nat
    const b: nat
    const sim: BattleSim.BattleSim
    var tick: nat
    var ended: bool
    var conns: map<nat, Option<Conn>>
    var ticking: bool
    // What can be observed from outside: packets per seat, what the loop still has to run,
    // the broadcasts, and the notices to the lobby.
    var log: Log
    ghost var pending: seq<RoomTask>
    ghost var out: seq<RoomMsg>
    ghost var notices: seq<RoomEnd>
    ghost var started: bool

    ghost predicate Valid()
      reads this, sim
    {
      log.Keys == conns.Keys == sim.players.Keys == {a, b}
    }

    function Battle(): R.Battle
      reads this, sim
    {
      R.Battle(tick, sim.State(), ended)
    }

    ghost function Seated(): Seats
      reads this, sim
    {
      Seats(id, Battle(), conns, log, started)
    }

    ghost function View(): Lobby.Room
      reads this
    {
      Lobby.Room(a, b, conns, ended, ticking, pending, out)
    }

    /** The first player on the left, the second on the right. */
    constructor (rid: nat, first: nat, firstConn: Option<Conn>, second: nat, secondConn: Option<Conn>)
      ensures Valid() && fresh(sim) && id == rid && notices == []
      ensures Seated() == NewSeats(rid, first, firstConn, second, secondConn)
      ensures View() == Lobby.Room(first, second, map[first := firstConn, second := secondConn], false, false,
        [Lobby.Start], [])
    {
      id, a, b := rid, first, second;
      tick, ended, ticking := 0, false, false;
      sim := new BattleSim.BattleSim();
      conns := map[first := firstConn, second := secondConn];
      log := map[first := [], second := []];
      pending, out, notices, started := [Lobby.Start], [], [], false;
      new;
      sim.AddPlayer(first, 30.0, 50.0);
      sim.AddPlayer(second, 70.0, 50.0);
    }

    method Broadcast(p: Packet)
      requires Valid()
      modifies this`log
      ensures Valid() && log == Told(old(log), conns, p)
    {
      hide Told, ToldSome;
      var todo := conns.Keys;
      ToldAtEnds(log, conns, p);
      while todo != {}
        invariant todo <= conns.Keys && log == ToldSome(old(log), conns, p, todo)
        decreases |todo|
      {
        var pid :| pid in todo;
        TellOneMore(old(log), conns, p, todo, pid);
        todo := todo - {pid};
        if conns[pid].Some? {
          log := log[pid := log[pid] + [(conns[pid].value, p)]];
        }
      }
    }

    method BroadcastBoth(p: Packet, q: Packet)
      requires Valid()
      modifies this`log
      ensures Valid() && log == Told(Told(old(log), conns, p), conns, q)
    {
      hide Told;
      Broadcast(p);
      Broadcast(q);
    }

    /** Everybody is told the members, then the whole battle; then ticking begins. */
    method Start(players: seq<nat>, bullets: seq<nat>)
      requires Valid() && Lists(players, sim.players.Keys) && Lists(bullets, sim.bullets.Keys)
      modifies this`log, this`ticking, this`out, this`started
      ensures Valid() && View() == old(View()).(ticking := true, out := old(out) + [EnterMsg])
      ensures Seated() == StartSeats(old(Seated()), players, bullets)
    {
      hide R.FullSnapshot, Told, Lists;
      var full := R.FullSnapshot(Battle(), players, bullets);
      BroadcastBoth(Enter(id, players), Snap(full));
      NoteStart();
    }

    method NoteStart()
      modifies this`ticking, this`out, this`started
      ensures ticking && started && out == old(out) + [EnterMsg]
    {
      out := out + [EnterMsg];
      ticking := true;
      started := true;
    }

    method OnInput(pid: nat, i: SimModel.Input)
      requires Valid()
      modifies sim
      ensures Valid() && Seated() == InputSeats(old(Seated()), pid, i)
    {
      if ended {
        return;
      }
      sim.ApplyInput(pid, i);
    }

    /** A returning player's connection, with the whole battle as it stands. */
    method Rebind(pid: nat, c: Conn, players: seq<nat>, bullets: seq<nat>)
      requires Valid() && Lists(players, sim.players.Keys) && Lists(bullets, sim.bullets.Keys)
      modifies this`conns, this`log
      ensures Valid() && View() == old(View()).(conns := Bind(Lobby.Rebind(pid, c), old(conns)))
      ensures Seated() == RebindSeats(old(Seated()), pid, c, players, bullets)
    {
      hide R.FullSnapshot, Lists, Bind;
      BindsOne(conns, pid, c);
      if pid in conns {
        conns := conns[pid := Some(c)];
        var full := R.FullSnapshot(Battle(), players, bullets);
        log := log[pid := log[pid] + [(c, Enter(id, players)), (c, Snap(full))]];
      }
    }

    method DropConn(pid: nat)
      requires Valid()
      modifies this`conns
      ensures Valid() && View() == old(View()).(conns := Bind(Drop(pid), old(conns)))
      ensures Seated() == DropSeats(old(Seated()), pid)
    {
      hide Bind;
      BindsOne(conns, pid, 0);
      if pid in conns {
        conns := conns[pid := None];
      }
    }

    method EndBattle(winner: nat)
      requires Valid() && !ended
      modifies this
      ensures Valid() && View() == AfterEnd(old(View()), winner) && Seated() == EndSeats(old(Seated()), winner)
      ensures notices == old(notices) + [RoomEnd(id, winner)]
    {
      hide Told;
      Broadcast(BattleEnd(winner));
      NoteEnd(winner);
    }

    /** Everything about an end but the broadcast. */
    method NoteEnd(winner: nat)
      modifies this`ended, this`out, this`pending, this`notices
      ensures ended && out == old(out) + [EndMsg(winner)] && pending == old(pending) + [StopTicker]
      ensures notices == old(notices) + [RoomEnd(id, winner)]
    {
      ended := true;
      out := out + [EndMsg(winner)];
      pending := pending + [StopTicker];
      notices := notices + [RoomEnd(id, winner)];
    }

    method ForceEnd(winner: nat)
      requires Valid()
      modifies this
      ensures Valid() && Seated() == EndSeats(old(Seated()), winner)
      ensures View() == if old(ended) then old(View()) else AfterEnd(old(View()), winner)
      ensures notices == old(notices) + Notices(old(View()), View(), id, winner)
    {
      if !ended {
        EndBattle(winner);
      }
    }

    /** One tick: the simulation steps, what changed is broadcast, a winner ends the battle. */
    method OnTick(o: R.Orders, root: Root)
      requires Valid() && (!ended ==> R.OrdersFit(Battle(), o, root))
      modifies this, sim
      ensures Valid() && Seated() == TickSeats(old(Seated()), o, root)
      ensures old(ended) ==> View() == old(View()) && notices == old(notices)
      ensures !old(ended) ==>
        var delta, winner := R.Delta(old(Battle()), o, root), Winner(sim.State());
        && View() == TickView(old(View()), delta.Some?, winner)
        && notices == old(notices) + Notices(old(View()), View(), id, winner)
    {
      hide R.OrdersFit, R.Delta, R.Ticked, Winner, Lists, TickView, TickLog, Notices;
      if !ended {
        EndsIffWinner(Battle(), o, root);
      }
      if ended {
        return;
      }
      var delta := StepSim(o, root);
      Report(delta, o.players);
    }

    static lemma EndsIffWinner(b: R.Battle, o: R.Orders, root: Root)
      requires R.OrdersFit(b, o, root)
      ensures R.Ticked(b, o, root).ended == (Winner(R.Ticked(b, o, root).sim) != 0)
    {
      hide R.OrdersFit, R.Stepped, Winner;
    }

    /** The room's part of a tick: the broadcasts, and the end if there is a winner. */
    method Report(delta: Option<S.Snapshot>, players: seq<nat>)
      requires Valid() && !ended && Lists(players, sim.players.Keys)
      modifies this
      ensures Valid() && Battle() == old(Battle()).(ended := Winner(sim.State()) != 0)
      ensures conns == old(conns) && started == old(started)
      ensures View() == TickView(old(View()), delta.Some?, Winner(sim.State()))
      ensures notices == old(notices) + Notices(old(View()), View(), id, Winner(sim.State()))
      ensures log == TickLog(old(log), conns, delta, Winner(sim.State()))
    {
      hide Lists, Winner, Told;
      if delta.Some? {
        Broadcast(Snap(delta.value));
        out := out + [SnapMsg];
      }
      var w := sim.WinnerOrZero(players);
      if w != 0 {
        EndBattle(w);
      }
    }

    /** The simulation's part of a tick, with the delta to send, if any. */
    method StepSim(o: R.Orders, root: Root) returns (delta: Option<S.Snapshot>)
      requires Valid() && R.OrdersFit(Battle(), o, root)
      modifies this`tick, sim
      ensures Valid() && delta == R.Delta(old(Battle()), o, root)
      ensures Battle() == R.Ticked(old(Battle()), o, root).(ended := ended) && Lists(o.players, sim.players.Keys)
    {
      hide SimModel.Step, Lists, Winner;
      tick := tick + 1;
      var changed := sim.Step(R.TICK_MS, o.players, o.bullets, root);
      ghost var stepped := sim.State();
      var removed := sim.TakeRemovedProjectileIds();
      ListsFacts(o, stepped, changed);
      SameStates(stepped, o);
      if |o.changed| != 0 || |o.live| != 0 || |removed| != 0 {
        delta := Some(S.Snapshot(tick, false, R.PlayerStates(sim.State(), o.changed),
          R.BulletStates(sim.State(), o.live), removed));
      } else {
        delta := None;
      }
    }

    static lemma ListsFacts(o: R.Orders, s: Sim, changed: set<nat>)
      requires Lists(o.changed, changed) && Lists(o.live, s.bullets.Keys) && forall id | id in changed ::
        id in s.players
      ensures (forall id | id in o.changed :: id in s.players) && (forall id | id in o.live :: id in s.bullets)
    {
    }

    /** Taking the removed ids away does not show in what is sent. */
    static lemma SameStates(s: Sim, o: R.Orders)
      requires (forall id | id in o.changed :: id in s.players) && (forall id | id in o.live :: id in s.bullets)
      ensures R.PlayerStates(s.(removed := []), o.changed) == R.PlayerStates(s, o.changed)
      ensures R.BulletStates(s.(removed := []), o.live) == R.BulletStates(s, o.live)
    {
    }
  }

  /** The winner the simulation names is one of the two players, as the protocol's ticks
      demand. */
  lemma WinnerIsAPlayer(s: Sim, a: nat, b: nat)
    requires s.players.Keys == {a, b}
    ensures Winner(s) == 0 || Winner(s) == a || Winner(s) == b
  {
    var w := Winner(s);
    if w != 0 {
      assert w in AliveIds(s.players);
    }
  }
}
