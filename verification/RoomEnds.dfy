/**
 How the players of a room hear of its end.  Nobody is told of an end before there is one;
 when it comes everybody who is connected is told the same winner, last of all and once.
 */
module RoomEnds {
  import opened Prelude
  import opened SimModel
  import opened RoomModel
  import opened RoomRuns
  import Lobby
  import R = Replication
  import S = Snapshots

  /** The winners a seat has been told, in order. */
  function Ends(sent: Sent): seq<nat> {
    if sent == [] then []
    else
      var last := sent[|sent| - 1].1;
      Ends(sent[..|sent| - 1]) + if last.BattleEnd? then [last.winner] else []
  }

  lemma EndsMore(sent: Sent, conn: Lobby.Conn, p: Packet)
    ensures Ends(sent + [(conn, p)]) == Ends(sent) + if p.BattleEnd? then [p.winner] else []
  {
    var more := sent + [(conn, p)];
    assert more[..|more| - 1] == sent && more[|more| - 1] == (conn, p);
  }

  /** The last packet of a seat, if it has a connection, is this one. */
  ghost predicate HearsLast(log: Log, conns: map<nat, Option<Lobby.Conn>>, pid: nat, p: Packet) {
    pid in conns && conns[pid].Some? ==>
      pid in log && log[pid] != [] && log[pid][|log[pid]| - 1] == (conns[pid].value, p)
  }

  lemma ToldEnds(log: Log, conns: map<nat, Option<Lobby.Conn>>, p: Packet, pid: nat)
    requires log.Keys == conns.Keys && pid in conns
    ensures Ends(Told(log, conns, p)[pid]) ==
      Ends(log[pid]) + if conns[pid].Some? && p.BattleEnd? then [p.winner] else []
    ensures HearsLast(Told(log, conns, p), conns, pid, p)
  {
    hide Told, Ends;
    ToldOne(log, conns, p, pid);
    if conns[pid].Some? {
      EndsMore(log[pid], conns[pid].value, p);
    }
  }

  /** Who is told what by an end with this winner, coming from `log`. */
  ghost predicate EndTold(log: Log, log': Log, conns: map<nat, Option<Lobby.Conn>>, winner: nat) {
    log.Keys == log'.Keys == conns.Keys && forall pid | pid in conns ::
      && HearsLast(log', conns, pid, BattleEnd(winner))
      && Ends(log'[pid]) == Ends(log[pid]) + if conns[pid].Some? then [winner] else []
  }

  /** No seat is told of an end. */
  ghost predicate NoEnd(log: Log, log': Log) {
    log.Keys == log'.Keys && forall pid | pid in log :: Ends(log'[pid]) == Ends(log[pid])
  }

  lemma ToldNoEnd(log: Log, conns: map<nat, Option<Lobby.Conn>>, p: Packet)
    requires log.Keys == conns.Keys && !p.BattleEnd?
    ensures NoEnd(log, Told(log, conns, p))
  {
    hide Told, Ends;
    forall pid | pid in log ensures Ends(Told(log, conns, p)[pid]) == Ends(log[pid]) {
      assert pid in conns.Keys;
      ToldEnds(log, conns, p, pid);
    }
  }

  lemma ToldEnd(log: Log, conns: map<nat, Option<Lobby.Conn>>, winner: nat)
    requires log.Keys == conns.Keys
    ensures EndTold(log, Told(log, conns, BattleEnd(winner)), conns, winner)
  {
    hide Told, Ends, HearsLast;
    forall pid | pid in conns
      ensures HearsLast(Told(log, conns, BattleEnd(winner)), conns, pid, BattleEnd(winner))
      ensures Ends(Told(log, conns, BattleEnd(winner))[pid]) ==
        Ends(log[pid]) + if conns[pid].Some? then [winner] else []
    {
      ToldEnds(log, conns, BattleEnd(winner), pid);
    }
  }

  lemma NoEndTwice(x: Log, y: Log, z: Log)
    requires NoEnd(x, y) && NoEnd(y, z)
    ensures NoEnd(x, z)
  {
    hide Ends;
    assert forall pid | pid in x :: pid in y.Keys;
  }

  lemma NoEndThenEnd(x: Log, y: Log, z: Log, conns: map<nat, Option<Lobby.Conn>>, winner: nat)
    requires NoEnd(x, y) && EndTold(y, z, conns, winner)
    ensures EndTold(x, z, conns, winner)
  {
    hide Ends, HearsLast;
    assert forall pid | pid in conns :: pid in x.Keys;
  }

  // ---------------------------------------------------------------- events

  lemma StartNoEnd(h: Seats, players: seq<nat>, bullets: seq<nat>)
    requires h.log.Keys == h.conns.Keys && Listable(h, players, bullets)
    ensures NoEnd(h.log, StartSeats(h, players, bullets).log)
  {
    hide Told, R.FullSnapshot, NoEnd, Lists;
    var entered := Told(h.log, h.conns, Enter(h.id, players));
    var full := R.FullSnapshot(h.b, players, bullets);
    ToldNoEnd(h.log, h.conns, Enter(h.id, players));
    ToldNoEnd(entered, h.conns, Snap(full));
    NoEndTwice(h.log, entered, Told(entered, h.conns, Snap(full)));
  }

  lemma RebindNoEnd(h: Seats, who: nat, c: Lobby.Conn, players: seq<nat>, bullets: seq<nat>)
    requires h.log.Keys == h.conns.Keys && Listable(h, players, bullets)
    ensures NoEnd(h.log, RebindSeats(h, who, c, players, bullets).log)
  {
    hide R.FullSnapshot, Lists, Ends;
    if who in h.conns {
      var full := R.FullSnapshot(h.b, players, bullets);
      var sent := h.log[who] + [(c, Enter(h.id, players))];
      assert h.log[who] + [(c, Enter(h.id, players)), (c, Snap(full))] == sent + [(c, Snap(full))];
      EndsMore(h.log[who], c, Enter(h.id, players));
      EndsMore(sent, c, Snap(full));
    }
  }

  lemma TickTells(log: Log, conns: map<nat, Option<Lobby.Conn>>, delta: Option<S.Snapshot>, winner: nat)
    requires log.Keys == conns.Keys
    ensures winner == 0 ==> NoEnd(log, TickLog(log, conns, delta, winner))
    ensures winner != 0 ==> EndTold(log, TickLog(log, conns, delta, winner), conns, winner)
  {
    hide Told, Ends, HearsLast;
    var l := if delta.Some? then Told(log, conns, Snap(delta.value)) else log;
    if delta.Some? {
      ToldNoEnd(log, conns, Snap(delta.value));
    }
    ToldEnd(l, conns, winner);
    hide NoEnd, EndTold;
    if winner != 0 {
      NoEndOnce(log, l, delta.Some?);
      NoEndThenEnd(log, l, Told(l, conns, BattleEnd(winner)), conns, winner);
    } else {
      NoEndOnce(log, l, delta.Some?);
    }
  }

  lemma NoEndOnce(log: Log, l: Log, told: bool)
    requires if told then NoEnd(log, l) else l == log
    ensures NoEnd(log, l)
  {
    hide Ends;
  }

  /** The winner an event ends the battle with: the only player left alive, or the one a
      forced end names. */
  ghost predicate EndsWith(h: Seats, e: Event, h': Seats, winner: nat) {
    match e
    case Tick(_) => winner != 0 && AliveIds(h'.b.sim.players) == {winner}
    case ForceEnd(w) => winner == w
    case _ => false
  }

  lemma TickEnds(h: Seats, o: R.Orders, root: Root) returns (winner: nat)
    requires h.log.Keys == h.conns.Keys && !h.b.ended && R.OrdersFit(h.b, o, root)
    ensures
      var h' := TickSeats(h, o, root);
      if h'.b.ended then
        EndTold(h.log, h'.log, h.conns, winner) && winner != 0 && AliveIds(h'.b.sim.players) == {winner}
      else NoEnd(h.log, h'.log)
  {
    var b := R.Ticked(h.b, o, root);
    winner := Winner(b.sim);
    assert b.ended == (winner != 0) by {
      hide R.OrdersFit, R.Stepped, Winner;
    }
    hide R.OrdersFit, R.Ticked, R.Delta, NoEnd, EndTold, TickLog;
    TickTells(h.log, h.conns, R.Delta(h.b, o, root), winner);
  }

  /** An event that ends the battle tells everybody connected, last of all, of the winner it
      ends with; any other event tells nobody of an end. */
  lemma EndIsTold(h: Seats, e: Event, root: Root) returns (winner: nat)
    requires h.log.Keys == h.conns.Keys && Possible(h, e, root)
    ensures
      var h' := Happen(h, e, root);
      if !h.b.ended && h'.b.ended then EndTold(h.log, h'.log, h.conns, winner) && EndsWith(h, e, h', winner)
      else NoEnd(h.log, h'.log) && h'.b.ended == h.b.ended
  {
    winner := 0;
    hide Told, Lists, TickSeats, StartSeats, RebindSeats;
    match e {
      case Start(players, bullets) => hide NoEnd; StartNoEnd(h, players, bullets); StartRuns(h, players, bullets);
      case Rebind(who, c, players, bullets) =>
        hide NoEnd;
        RebindNoEnd(h, who, c, players, bullets);
        RebindRuns(h, who, c, players, bullets);
      case Drop(_) => hide Ends;
      case GotInput(_, _) => hide Ends;
      case Tick(o) =>
        hide Ends, R.OrdersFit, HearsLast, Winner;
        if h.b.ended {
          TickIdle(h, o, root);
        } else {
          winner := TickEnds(h, o, root);
        }
      case ForceEnd(w) =>
        winner := w;
        ToldEnd(h.log, h.conns, w);
        hide Ends, HearsLast;
    }
  }

  lemma TickIdle(h: Seats, o: R.Orders, root: Root)
    requires h.log.Keys == h.conns.Keys && h.b.ended
    ensures TickSeats(h, o, root) == h
  {
  }

  lemma StartRuns(h: Seats, players: seq<nat>, bullets: seq<nat>)
    requires h.log.Keys == h.conns.Keys && Listable(h, players, bullets)
    ensures StartSeats(h, players, bullets).b == h.b
  {
    hide Told, R.FullSnapshot, Lists;
  }

  lemma RebindRuns(h: Seats, who: nat, c: Lobby.Conn, players: seq<nat>, bullets: seq<nat>)
    requires h.log.Keys == h.conns.Keys && Listable(h, players, bullets)
    ensures RebindSeats(h, who, c, players, bullets).b == h.b
  {
    hide R.FullSnapshot, Lists;
  }

  // ---------------------------------------------------------------- runs

  /** Everybody has been told of this winner once, or of none. */
  ghost predicate OneWinner(h: Seats, winner: nat) {
    forall pid | pid in h.log :: Ends(h.log[pid]) == [] || Ends(h.log[pid]) == [winner]
  }

  ghost predicate Heard(h: Seats) {
    && h.log.Keys == h.conns.Keys
    && if h.b.ended then exists winner: nat :: OneWinner(h, winner)
      else forall pid | pid in h.log :: Ends(h.log[pid]) == []
  }

  lemma HappenHeard(h: Seats, e: Event, root: Root)
    requires Heard(h) && Possible(h, e, root)
    ensures Heard(Happen(h, e, root))
  {
    hide Ends, Possible;
    var winner := EndIsTold(h, e, root);
    var h' := Happen(h, e, root);
    hide Happen, HearsLast, EndsWith;
    if h.b.ended {
      var w: nat :| OneWinner(h, w);
      assert OneWinner(h', w);
    } else if h'.b.ended {
      forall pid | pid in h'.log ensures Ends(h'.log[pid]) == [] || Ends(h'.log[pid]) == [winner] {
        assert pid in h.log.Keys && pid in h.conns.Keys;
        assert [] + [winner] == [winner];
      }
      assert OneWinner(h', winner);
    }
  }

  lemma {:induction false} RunHeard(h: Seats, es: seq<Event>, root: Root, h': Seats)
    requires Heard(h) && Reaches(h, es, root, h')
    ensures Heard(h')
    decreases |es|
  {
    if es != [] {
      assert h.log.Keys == h.conns.Keys;
      hide Heard, Happen, Possible;
      HappenHeard(h, es[0], root);
      RunHeard(Happen(h, es[0], root), es[1..], root, h');
    }
  }

  /**
   Over any run of a new room: before the battle has ended nobody has been told of an end, and
   afterwards there is one winner such that every seat has been told of that one, once, or of
   none.
   */
  lemma EverybodyHearsOneEnd(id: nat, a: nat, ca: Option<Lobby.Conn>, b: nat, cb: Option<Lobby.Conn>,
                             es: seq<Event>, root: Root, h: Seats)
    requires Reaches(NewSeats(id, a, ca, b, cb), es, root, h)
    ensures !h.b.ended ==> forall pid | pid in h.log :: Ends(h.log[pid]) == []
    ensures h.b.ended ==> exists winner: nat :: OneWinner(h, winner)
  {
    var h0 := NewSeats(id, a, ca, b, cb);
    assert Heard(h0) by {
      hide Reaches;
    }
    hide Reaches, Ends, NewSeats, OneWinner;
    RunHeard(h0, es, root, h);
  }
}
