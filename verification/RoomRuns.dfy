/**
 From the room to a player's screen.  Over any run of a room, with players dropping out and
 coming back, a client that pushes what was sent to its seat since its last full snapshot
 shows the battle exactly as it stands on the server.
 */
module RoomRuns {
  import opened Prelude
  import opened SimModel
  import opened SimFacts
  import opened RoomModel
  import Lobby
  import R = Replication
  import I = InterpModel
  import S = Snapshots

  datatype Event =
    | Start(players: seq<nat>, bullets: seq<nat>)
    | Rebind(pid: nat, conn: Lobby.Conn, players: seq<nat>, bullets: seq<nat>)
    | Drop(pid: nat)
    | GotInput(pid: nat, input: Input)
    | Tick(orders: R.Orders)
    | ForceEnd(winner: nat)

  ghost predicate Possible(h: Seats, e: Event, root: Root) {
    match e
    case Start(players, bullets) => Listable(h, players, bullets)
    case Rebind(_, _, players, bullets) => Listable(h, players, bullets)
    case Tick(o) => h.b.ended || R.OrdersFit(h.b, o, root)
    case _ => true
  }

  ghost function Happen(h: Seats, e: Event, root: Root): (r: Seats)
    requires h.log.Keys == h.conns.Keys && Possible(h, e, root)
    ensures r.log.Keys == r.conns.Keys == h.conns.Keys
  {
    match e
    case Start(players, bullets) => StartSeats(h, players, bullets)
    case Rebind(pid, c, players, bullets) => RebindSeats(h, pid, c, players, bullets)
    case Drop(pid) => DropSeats(h, pid)
    case GotInput(pid, i) => InputSeats(h, pid, i)
    case Tick(o) => TickSeats(h, o, root)
    case ForceEnd(w) => EndSeats(h, w)
  }

  ghost predicate Reaches(h: Seats, es: seq<Event>, root: Root, h': Seats)
    requires h.log.Keys == h.conns.Keys
    decreases |es|
  {
    if es == [] then h' == h
    else Possible(h, es[0], root) && Reaches(Happen(h, es[0], root), es[1..], root, h')
  }

  // ---------------------------------------------------------------- one seat

  type Sent = seq<(Lobby.Conn, Packet)>

  /** The packets from the last full snapshot on; none if there was none. */
  function SinceFull(sent: Sent): Sent {
    if sent == [] then []
    else
      var (before, last) := (sent[..|sent| - 1], sent[|sent| - 1]);
      if last.1.Snap? && last.1.snap.full then [last]
      else if SinceFull(before) != [] then SinceFull(before) + [last]
      else []
  }

  /** What a client shows after these packets. */
  function Shown(c: I.Client, sent: Sent): I.Client {
    if sent == [] then c
    else
      var last := sent[|sent| - 1].1;
      var c1 := Shown(c, sent[..|sent| - 1]);
      if last.Snap? then I.Push(c1, last.snap) else c1
  }

  /** A client that joins in with the last full snapshot. */
  function Screen(c: I.Client, sent: Sent): I.Client {
    Shown(c, SinceFull(sent))
  }

  lemma SentMore(c: I.Client, sent: Sent, conn: Lobby.Conn, p: Packet)
    ensures p.Snap? && p.snap.full ==>
      SinceFull(sent + [(conn, p)]) != [] && Screen(c, sent + [(conn, p)]) == I.Push(c, p.snap)
    ensures !(p.Snap? && p.snap.full) ==> (SinceFull(sent + [(conn, p)]) != [] <==> SinceFull(sent) != [])
    ensures !(p.Snap? && p.snap.full) && SinceFull(sent) != [] ==>
      Screen(c, sent + [(conn, p)]) == if p.Snap? then I.Push(Screen(c, sent), p.snap) else Screen(c, sent)
  {
    hide I.Push;
    var more := sent + [(conn, p)];
    assert more[..|more| - 1] == sent && more[|more| - 1] == (conn, p);
    if p.Snap? && p.snap.full {
      assert [(conn, p)][..0] == [];
      assert Shown(c, [(conn, p)][..0]) == c;
    } else if SinceFull(sent) != [] {
      var since := SinceFull(sent) + [(conn, p)];
      assert since[..|since| - 1] == SinceFull(sent);
    }
  }

  /** All packets came over one connection. */
  predicate Over(sent: Sent, conn: Lobby.Conn) {
    forall i | 0 <= i < |sent| :: sent[i].0 == conn
  }

  lemma OverMore(sent: Sent, conn: Lobby.Conn, p: Packet)
    ensures p.Snap? && p.snap.full ==> Over(SinceFull(sent + [(conn, p)]), conn)
    ensures !(p.Snap? && p.snap.full) && Over(SinceFull(sent), conn) ==> Over(SinceFull(sent + [(conn, p)]), conn)
  {
    var more := sent + [(conn, p)];
    assert more[..|more| - 1] == sent && more[|more| - 1] == (conn, p);
  }

  // ---------------------------------------------------------------- what every event keeps

  /** The seat, when connected in a room that has started, has had a full snapshot over this
      very connection, and its screen is the battle. */
  ghost predicate SeatOk(h: Seats, pid: nat, c: I.Client)
    requires h.log.Keys == h.conns.Keys
  {
    && IdsBelow(h.b.sim.bullets, h.b.sim.nextId)
    && (h.started && pid in h.conns && h.conns[pid].Some? ==> SinceFull(h.log[pid]) != [])
    && (pid in h.conns && h.conns[pid].Some? && SinceFull(h.log[pid]) != [] ==>
          R.Synced(Screen(c, h.log[pid]), h.b) && Over(SinceFull(h.log[pid]), h.conns[pid].value))
  }

  /** What a seat was sent before and after. */
  lemma ToldOne(log: Log, conns: map<nat, Option<Lobby.Conn>>, p: Packet, pid: nat)
    requires log.Keys == conns.Keys && pid in conns
    ensures Told(log, conns, p)[pid] == if conns[pid].Some? then log[pid] + [(conns[pid].value, p)] else log[pid]
  {
  }

  lemma FullSyncs(c: I.Client, b: R.Battle, players: seq<nat>, bullets: seq<nat>)
    requires Lists(players, b.sim.players.Keys) && Lists(bullets, b.sim.bullets.Keys)
    requires IdsBelow(b.sim.bullets, b.sim.nextId)
    ensures R.Synced(I.Push(c, R.FullSnapshot(b, players, bullets)), b) && R.FullSnapshot(b, players, bullets).full
  {
    hide I.Push, R.Mirrors, Lists;
    R.FullSnapshotMirrors(c, b, players, bullets);
  }

  lemma StartOk(h: Seats, pid: nat, c: I.Client, players: seq<nat>, bullets: seq<nat>)
    requires h.log.Keys == h.conns.Keys && SeatOk(h, pid, c) && Listable(h, players, bullets)
    ensures SeatOk(StartSeats(h, players, bullets), pid, c)
  {
    hide R.Synced, I.Push, R.FullSnapshot, Told, SinceFull, Screen, Lists, Over, IdsBelow;
    var enter, full := Enter(h.id, players), Snap(R.FullSnapshot(h.b, players, bullets));
    if pid in h.conns {
      var entered := Told(h.log, h.conns, enter);
      ToldOne(h.log, h.conns, enter, pid);
      ToldOne(entered, h.conns, full, pid);
      FullSyncs(c, h.b, players, bullets);
      if h.conns[pid].Some? {
        SentMore(c, entered[pid], h.conns[pid].value, full);
        OverMore(entered[pid], h.conns[pid].value, full);
      }
    }
  }

  lemma RebindOk(h: Seats, pid: nat, c: I.Client, who: nat, conn: Lobby.Conn, players: seq<nat>, bullets: seq<nat>)
    requires h.log.Keys == h.conns.Keys && SeatOk(h, pid, c) && Listable(h, players, bullets)
    ensures SeatOk(RebindSeats(h, who, conn, players, bullets), pid, c)
  {
    hide R.Synced, I.Push, R.FullSnapshot, SinceFull, Screen, Lists, Over, IdsBelow;
    if pid in h.conns && pid == who {
      var enter, full := Enter(h.id, players), Snap(R.FullSnapshot(h.b, players, bullets));
      var sent := h.log[pid] + [(conn, enter)];
      assert h.log[pid] + [(conn, enter), (conn, full)] == sent + [(conn, full)];
      FullSyncs(c, h.b, players, bullets);
      SentMore(c, sent, conn, full);
      OverMore(sent, conn, full);
    }
  }

  lemma SyncedByBattle(c: I.Client, b: R.Battle, b': R.Battle)
    requires R.Synced(c, b) && b'.sim == b.sim && b'.tick == b.tick
    ensures R.Synced(c, b')
  {
    hide R.Mirrors;
  }

  lemma EndOk(h: Seats, pid: nat, c: I.Client, winner: nat)
    requires h.log.Keys == h.conns.Keys && SeatOk(h, pid, c)
    ensures SeatOk(EndSeats(h, winner), pid, c)
  {
    hide R.Synced, I.Push, Told, SinceFull, Screen, Over, IdsBelow;
    if !h.b.ended && pid in h.conns {
      ToldOne(h.log, h.conns, BattleEnd(winner), pid);
      if h.conns[pid].Some? {
        SentMore(c, h.log[pid], h.conns[pid].value, BattleEnd(winner));
        OverMore(h.log[pid], h.conns[pid].value, BattleEnd(winner));
        if SinceFull(h.log[pid]) != [] {
          SyncedByBattle(Screen(c, h.log[pid]), h.b, h.b.(ended := true));
        }
      }
    }
  }

  lemma InputOk(h: Seats, pid: nat, c: I.Client, who: nat, i: Input)
    requires h.log.Keys == h.conns.Keys && SeatOk(h, pid, c)
    ensures SeatOk(InputSeats(h, who, i), pid, c)
  {
    hide R.Synced, I.Push, SinceFull, Screen, Over;
    if !h.b.ended && pid in h.conns && h.conns[pid].Some? && SinceFull(h.log[pid]) != [] {
      InputSynced(Screen(c, h.log[pid]), h.b, who, i);
    }
  }

  lemma InputSynced(c: I.Client, b: R.Battle, who: nat, i: Input)
    requires R.Synced(c, b)
    ensures R.Synced(c, b.(sim := ApplyInput(b.sim, who, i)))
  {
  }

  function Pushed(c: I.Client, delta: Option<S.Snapshot>): I.Client {
    match delta
    case None => c
    case Some(snap) => I.Push(c, snap)
  }

  /** The packets of a tick: a delta if there is one, an end if there is a winner. */
  lemma TickSends(log: Log, conns: map<nat, Option<Lobby.Conn>>, delta: Option<S.Snapshot>, winner: nat,
                  pid: nat, c: I.Client)
    requires log.Keys == conns.Keys && pid in conns && conns[pid].Some? && (delta.Some? ==> !delta.value.full)
    ensures pid in TickLog(log, conns, delta, winner)
    ensures
      var sent := TickLog(log, conns, delta, winner)[pid];
      && (SinceFull(sent) != [] <==> SinceFull(log[pid]) != [])
      && (Over(SinceFull(log[pid]), conns[pid].value) ==> Over(SinceFull(sent), conns[pid].value))
      && (SinceFull(sent) != [] ==> Screen(c, sent) == Pushed(Screen(c, log[pid]), delta))
  {
    hide I.Push, Told, SinceFull, Screen, Over;
    var conn := conns[pid].value;
    var l := if delta.Some? then Told(log, conns, Snap(delta.value)) else log;
    if delta.Some? {
      ToldOne(log, conns, Snap(delta.value), pid);
      SentMore(c, log[pid], conn, Snap(delta.value));
      OverMore(log[pid], conn, Snap(delta.value));
    }
    ToldOne(l, conns, BattleEnd(winner), pid);
    SentMore(c, l[pid], conn, BattleEnd(winner));
    OverMore(l[pid], conn, BattleEnd(winner));
  }

  lemma TickOk(h: Seats, pid: nat, c: I.Client, o: R.Orders, root: Root)
    requires h.log.Keys == h.conns.Keys && SeatOk(h, pid, c) && !h.b.ended && R.OrdersFit(h.b, o, root)
    ensures SeatOk(TickSeats(h, o, root), pid, c)
  {
    hide R.Synced, R.Ticked, R.Delta, R.OrdersFit, I.Push, SinceFull, Screen, Over, TickLog, Winner, IdsBelow;
    TickIds(h.b, o, root);
    DeltaIsPartial(h.b, o, root);
    if pid in h.conns && h.conns[pid].Some? {
      var delta, winner := R.Delta(h.b, o, root), Winner(R.Ticked(h.b, o, root).sim);
      TickSends(h.log, h.conns, delta, winner, pid, c);
      if SinceFull(h.log[pid]) != [] {
        R.TickSynced(Screen(c, h.log[pid]), h.b, o, root);
      }
    }
  }

  lemma TickIds(b: R.Battle, o: R.Orders, root: Root)
    requires R.OrdersFit(b, o, root) && IdsBelow(b.sim.bullets, b.sim.nextId)
    ensures IdsBelow(R.Ticked(b, o, root).sim.bullets, R.Ticked(b, o, root).sim.nextId)
  {
    hide Step, Lists, Winner;
    StepFacts(b.sim, R.TICK_MS, o.players, o.bullets, root);
  }

  lemma DeltaIsPartial(b: R.Battle, o: R.Orders, root: Root)
    requires R.OrdersFit(b, o, root)
    ensures R.Delta(b, o, root).Some? ==> !R.Delta(b, o, root).value.full
  {
    hide R.OrdersFit, R.Stepped;
  }

  lemma HappenOk(h: Seats, e: Event, root: Root, pid: nat, c: I.Client)
    requires h.log.Keys == h.conns.Keys && Possible(h, e, root) && SeatOk(h, pid, c)
    ensures SeatOk(Happen(h, e, root), pid, c)
  {
    match e {
      case Start(players, bullets) => hide SeatOk; StartOk(h, pid, c, players, bullets);
      case Rebind(who, conn, players, bullets) => hide SeatOk; RebindOk(h, pid, c, who, conn, players, bullets);
      case Drop(who) => hide R.Synced, Screen, SinceFull, Over, IdsBelow;
      case GotInput(who, i) => hide SeatOk; InputOk(h, pid, c, who, i);
      case Tick(o) =>
        hide SeatOk;
        if !h.b.ended {
          TickOk(h, pid, c, o, root);
        }
      case ForceEnd(w) => hide SeatOk; EndOk(h, pid, c, w);
    }
  }

  lemma {:induction false} RunOk(h: Seats, es: seq<Event>, root: Root, h': Seats, pid: nat, c: I.Client)
    requires h.log.Keys == h.conns.Keys && SeatOk(h, pid, c) && Reaches(h, es, root, h')
    ensures h'.log.Keys == h'.conns.Keys && SeatOk(h', pid, c)
    decreases |es|
  {
    if es != [] {
      hide SeatOk, Happen, Possible;
      HappenOk(h, es[0], root, pid, c);
      RunOk(Happen(h, es[0], root), es[1..], root, h', pid, c);
    }
  }

  lemma NewSeatsOk(id: nat, a: nat, ca: Option<Lobby.Conn>, b: nat, cb: Option<Lobby.Conn>, pid: nat, c: I.Client)
    ensures NewSeats(id, a, ca, b, cb).log.Keys == NewSeats(id, a, ca, b, cb).conns.Keys
    ensures SeatOk(NewSeats(id, a, ca, b, cb), pid, c)
  {
    hide R.Synced, Screen, Over;
  }

  /**
   Over any run of a new room, whatever the order of starts, drops, reconnects, inputs,
   ticks and forced ends: a seat that is connected once the room has started has been sent a
   full snapshot over its present connection, and any client that pushes what the seat was
   sent since the last one holds exactly the server's positions and health and exactly its
   live bullets.
   */
  lemma SeatShowsTheBattle(id: nat, a: nat, ca: Option<Lobby.Conn>, b: nat, cb: Option<Lobby.Conn>,
                           es: seq<Event>, root: Root, h: Seats, pid: nat, c: I.Client)
    requires Reaches(NewSeats(id, a, ca, b, cb), es, root, h)
    requires h.started && pid in h.conns && h.conns[pid].Some?
    ensures pid in h.log && SinceFull(h.log[pid]) != [] && Over(SinceFull(h.log[pid]), h.conns[pid].value)
    ensures R.Mirrors(Screen(c, h.log[pid]), h.b.sim)
  {
    NewSeatsOk(id, a, ca, b, cb, pid, c);
    hide Reaches, R.Mirrors, Screen, SinceFull, Over;
    RunOk(NewSeats(id, a, ca, b, cb), es, root, h, pid, c);
  }
}
