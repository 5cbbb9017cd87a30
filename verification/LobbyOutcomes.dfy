/**
 Which battles are recorded.  A result is recorded exactly when the end names a winner and
 both sessions are still there with an account; here are also runs in which it is not.
 */
module LobbyOutcomes {
  import opened Prelude
  import opened Lobby
  import opened LobbyInv
  import opened LobbyTheorems
  import W = WheelModel
  import Q = QueueModel

  // ---------------------------------------------------------------- the exact condition

  /** The two players of a room can both be named in a result. */
  predicate BothNamed(sessions: map<nat, Session>, room: Room) {
    && room.a in sessions && sessions[room.a].account != ""
    && room.b in sessions && sessions[room.b].account != ""
  }

  /** The result is the winner's against the other player of the room. */
  predicate Names(r: Result, room: Room, winner: nat) {
    r.winner == winner && r.loser == if winner == room.a then room.b else room.a
  }

  lemma EndedRoom(st: System)
    requires Inv(st) && st.inbox != []
    ensures
      var e := st.inbox[0];
      && e.rid != 0 && e.rid in st.rooms && e.rid in st.table && MemberOrNone(st.rooms[e.rid], e.winner)
      && RoomOk(st.rooms[e.rid]) && 0 !in st.sessions
      && (forall p :: Plays(st.sessions, p, e.rid) <==> p in st.sessions && p in {st.rooms[e.rid].a, st.rooms[e.rid].b})
  {
    hide W.Inv, W.Flat, Q.Settled, ConnsOk, TimersOk, ResultsOk, GoneOk, MatchTimersOk, OutOk, PendingOk, Binding;
    var e := st.inbox[0];
    var room := st.rooms[e.rid];
    assert RoomOk(room);
    forall p ensures Plays(st.sessions, p, e.rid) <==> p in st.sessions && p in {room.a, room.b} {
      if p in room.conns {
        assert Agrees(st.sessions, e.rid, room, p);
      }
    }
  }

  /**
   When the lobby hears of the end of a battle, in any reachable state, it records a result
   if and only if the end names a winner and both players' sessions exist with non-empty
   accounts; the result then names the winner and the other player.
   */
  lemma RecordedIff(st: System)
    requires Reachable(st) && st.inbox != []
    ensures Sane(st) && st.inbox[0].rid in st.rooms
    ensures
      var e := st.inbox[0];
      var room := st.rooms[e.rid];
      var news := RunLobbyTask(st).results[|st.results|..];
      && |RunLobbyTask(st).results| >= |st.results| && RunLobbyTask(st).results[..|st.results|] == st.results
      && (news != [] <==> e.winner != 0 && BothNamed(st.sessions, room))
      && (news != [] ==> |news| == 1 && Names(news[0], room, e.winner))
  {
    hide Reachable;
    ReachableInv(st);
    EndedRoom(st);
    hide Inv, Sane, Outcome, BackToLobby, OutOk, PendingOk;
    var e := st.inbox[0];
    OutcomeIff(st.sessions, st.rooms[e.rid], e.rid, e.winner);
    var r := Outcome(st.sessions, e.rid, e.winner);
    assert RunLobbyTask(st).results == st.results + r;
    assert (st.results + r)[|st.results|..] == r;
  }

  lemma OutcomeIff(sessions: map<nat, Session>, room: Room, rid: nat, winner: nat)
    requires room.a != room.b && 0 !in sessions && MemberOrNone(room, winner)
    requires forall p :: Plays(sessions, p, rid) <==> p in sessions && p in {room.a, room.b}
    ensures
      var r := Outcome(sessions, rid, winner);
      && (r != [] <==> winner != 0 && BothNamed(sessions, room))
      && (r != [] ==> |r| == 1 && Names(r[0], room, winner))
  {
    var r := Outcome(sessions, rid, winner);
    if winner != 0 && BothNamed(sessions, room) {
      var l := if winner == room.a then room.b else room.a;
      assert l != winner && Plays(sessions, l, rid) && sessions[l].account != "";
      assert Plays(sessions, winner, rid);
    } else if winner != 0 && Plays(sessions, winner, rid) && sessions[winner].account != "" {
      var l := if winner == room.a then room.b else room.a;
      assert forall p | p != winner && Plays(sessions, p, rid) :: p == l;
    }
  }

  // ---------------------------------------------------------------- composing runs

  lemma {:induction false} RunConcat(st: System, a: seq<Step>, b: seq<Step>)
    requires Sane(st) && ValidRun(st, a) && ValidRun(After(st, a), b)
    ensures ValidRun(st, a + b) && After(st, a + b) == After(After(st, a), b)
    decreases |a|
  {
    hide Sane, Apply, Enabled;
    if a == [] {
      assert a + b == b;
    } else {
      assert (a + b)[0] == a[0] && (a + b)[1..] == a[1..] + b;
      RunConcat(Apply(st, a[0]), a[1..], b);
    }
  }

  lemma RunOne(st: System, s: Step)
    requires Sane(st) && Enabled(st, s)
    ensures ValidRun(st, [s]) && After(st, [s]) == Apply(st, s)
  {
    hide Sane, Apply, Enabled;
    assert [s][1..] == [];
  }

  lemma RunMore(st: System, a: seq<Step>, s: Step) returns (steps: seq<Step>)
    requires Sane(st) && ValidRun(st, a) && Enabled(After(st, a), s)
    ensures ValidRun(st, steps) && After(st, steps) == Apply(After(st, a), s)
  {
    hide Sane, Apply, Enabled, ValidRun, After;
    RunOne(After(st, a), s);
    RunConcat(st, a, [s]);
    steps := a + [s];
  }

  // ---------------------------------------------------------------- waiting for an expiry

  /** A wheel step leaves a disconnected in-room session as it is, or erases it and posts the
      forced end to its room; it moves no room out of the table and records nothing. */
  ghost predicate WheelStepOk(st: System, st': System, pid: nat, rid: nat)
    requires pid in st.sessions && rid in st.rooms
  {
    && st'.table == st.table && st'.inbox == st.inbox && st'.results == st.results && rid in st'.rooms
    && pid in st'.dropTick && pid in st.dropTick && st'.dropTick[pid] == st.dropTick[pid]
    && if pid in st'.sessions then st'.sessions[pid] == st.sessions[pid] else Doomed(st'.rooms[rid])
  }

  /** The room has ended, or its end has been posted to it. */
  ghost predicate Doomed(room: Room) {
    room.ended || exists i | 0 <= i < |room.pending| :: room.pending[i].ForceEnd?
  }

  ghost predicate Lost(st: System, pid: nat, rid: nat) {
    && pid in st.sessions && st.sessions[pid].conn == None && st.sessions[pid].place == InRoom
    && st.sessions[pid].roomId == rid
  }

  lemma LostFacts(st: System, pid: nat, rid: nat)
    requires Inv(st) && Lost(st, pid, rid)
    ensures rid in st.table && rid in st.rooms && pid in st.rooms[rid].conns && rid != 0
    ensures pid !in st.queue.waiting && pid in st.dropTick
    ensures st.wheel.now <= st.dropTick[pid] + KEEP_TICKS
    ensures st.wheel.firing == [] ==> st.wheel.now < st.dropTick[pid] + KEEP_TICKS
  {
    hide W.Inv, W.Flat, Q.Settled, ConnsOk, ResultsOk, GoneOk, MatchTimersOk, RoomsOk, EndsOk, Agrees;
    W.NothingOverdue(st.wheel);
  }

  lemma PostDooms(rooms: map<nat, Room>, table: set<nat>, rid: nat, winner: nat)
    requires rid in rooms && rid in table
    ensures rid in Post(rooms, table, rid, ForceEnd(winner)) && Doomed(Post(rooms, table, rid, ForceEnd(winner))[rid])
  {
    var room := Post(rooms, table, rid, ForceEnd(winner))[rid];
    assert room.pending[|room.pending| - 1] == ForceEnd(winner);
  }

  lemma ExpireStep(st: System, p: nat, pid: nat, rid: nat)
    requires Sane(st) && Lost(st, pid, rid) && rid in st.table && rid in st.rooms && pid in st.dropTick
    ensures WheelStepOk(st, ExpireSession(st, p), pid, rid) && ExpireSession(st, p).wheel == st.wheel
  {
    hide Sane, Survivor, Doomed, Post;
    if p in st.sessions && st.sessions[p].conn == None && st.sessions[p].place == InRoom {
      PostKeepsRooms(st.rooms, st.table, st.sessions[p].roomId, ForceEnd(Survivor(st.sessions, p)));
      PostDooms(st.rooms, st.table, rid, Survivor(st.sessions, p));
    }
  }

  lemma PostKeepsRooms(rooms: map<nat, Room>, table: set<nat>, rid: nat, t: RoomTask)
    ensures Post(rooms, table, rid, t).Keys == rooms.Keys
  {
  }

  lemma TimeoutStep(st: System, p: nat, pid: nat, rid: nat)
    requires Sane(st) && Lost(st, pid, rid) && rid in st.rooms && pid in st.dropTick && pid !in st.queue.waiting
    ensures WheelStepOk(st, OnMatchTimeout(st, p), pid, rid) && OnMatchTimeout(st, p).wheel == st.wheel
  {
    hide Sane;
  }

  lemma SweepStep(st: System, pid: nat, rid: nat)
    requires Sane(st) && Lost(st, pid, rid) && rid in st.rooms && pid in st.dropTick
    ensures WheelStepOk(st, OnSweep(st), pid, rid)
    ensures OnSweep(st).wheel.now == st.wheel.now && OnSweep(st).wheel.firing == st.wheel.firing
  {
    W.AddFlat(st.wheel, SWEEP_MS, W.Sweep);
    hide Sane, W.Add, W.WellFormed;
  }

  lemma FireStep(st: System, pid: nat, rid: nat)
    requires Inv(st) && Sane(st) && st.wheel.firing != [] && Lost(st, pid, rid)
    ensures rid in st.rooms && WheelStepOk(st, FireTimer(st), pid, rid)
    ensures FireTimer(st).wheel.now == st.wheel.now && |FireTimer(st).wheel.firing| < |st.wheel.firing|
  {
    hide Inv, W.Inv, W.FireNext, W.Flat, W.WellFormed, Q.Ok, OnSweep, OnMatchTimeout, ExpireSession, Doomed;
    LostFacts(st, pid, rid);
    InvWheel(st);
    W.FireNextRefines(st.wheel);
    W.NextIsLive(st.wheel);
    var n := st.wheel.nodes[st.wheel.firing[0]];
    var st1 := st.(wheel := W.FireNext(st.wheel));
    if !n.canceled {
      match n.cb {
        case MatchTimeout(p) => TimeoutStep(st1, p, pid, rid);
        case ExpireSession(p) => ExpireStep(st1, p, pid, rid);
        case Sweep => SweepStep(st1, pid, rid);
      }
    }
  }

  lemma TickStep(st: System, pid: nat, rid: nat)
    requires Inv(st) && Sane(st) && st.wheel.firing == [] && Lost(st, pid, rid)
    ensures rid in st.rooms && WheelStepOk(st, TickWheel(st), pid, rid) && TickWheel(st).wheel.now == st.wheel.now + 1
  {
    hide Inv, W.Inv, W.StartTick, W.Flat, W.WellFormed, Q.Ok, Doomed;
    LostFacts(st, pid, rid);
    InvWheel(st);
    W.StartTickRefines(st.wheel);
  }

  function ToGo(st: System, pid: nat): int {
    if pid in st.dropTick then st.dropTick[pid] + KEEP_TICKS - st.wheel.now else 0
  }

  /** Left alone, a disconnected player of a room loses the session: wheel ticks and timers
      lead to a state in which it is gone and the end has been posted to the room. */
  lemma {:induction false} ExpiryComes(st: System, pid: nat, rid: nat) returns (steps: seq<Step>)
    requires Inv(st) && Sane(st) && Lost(st, pid, rid)
    ensures ValidRun(st, steps)
    ensures
      var r := After(st, steps);
      && Inv(r) && pid !in r.sessions && rid in r.rooms && Doomed(r.rooms[rid])
      && r.table == st.table && r.inbox == st.inbox && r.results == st.results
    decreases ToGo(st, pid), |st.wheel.firing|
  {
    hide Inv, Sane, FireTimer, TickWheel, Doomed;
    LostFacts(st, pid, rid);
    var s := if st.wheel.firing == [] then WheelTick else WheelFire;
    StepInv(st, s);
    if s == WheelTick {
      TickStep(st, pid, rid);
    } else {
      FireStep(st, pid, rid);
    }
    var st1 := Apply(st, s);
    assert WheelStepOk(st, st1, pid, rid);
    hide Apply;
    RunOne(st, s);
    InvSane(st1);
    if pid !in st1.sessions {
      steps := [s];
    } else {
      var rest := ExpiryComes(st1, pid, rid);
      RunConcat(st, [s], rest);
      steps := [s] + rest;
    }
  }

  // ---------------------------------------------------------------- the room ends, the lobby hears

  lemma TaskStep(st: System, rid: nat)
    requires Sane(st) && rid in st.rooms && !st.rooms[rid].ended && Doomed(st.rooms[rid])
    ensures st.rooms[rid].pending != []
    ensures
      var r := RunRoomTask(st, rid);
      && r.rooms.Keys == st.rooms.Keys && Doomed(r.rooms[rid]) && r.table == st.table
      && (!r.rooms[rid].ended ==> |r.rooms[rid].pending| < |st.rooms[rid].pending|)
  {
    hide Sane, AfterTask, AfterEnd, RunRoomTask;
    TaskIsAfterTask(st, rid);
    AfterTaskDoomed(st.rooms[rid]);
  }

  lemma AfterTaskDoomed(room: Room)
    requires !room.ended && room.pending != [] && Doomed(room)
    ensures !room.pending[0].ForceEnd? ==> Doomed(AfterTask(room)) && |AfterTask(room).pending| < |room.pending|
    ensures forall w :: AfterEnd(AfterTask(room), w).ended
  {
    hide Bind;
    var i :| 0 <= i < |room.pending| && room.pending[i].ForceEnd?;
    if i > 0 {
      assert AfterTask(room).pending[i - 1] == room.pending[i];
    }
  }

  lemma {:induction false} RoomRunsOut(st: System, rid: nat) returns (steps: seq<Step>)
    requires Inv(st) && Sane(st) && rid in st.rooms && rid in st.table && Doomed(st.rooms[rid])
    ensures ValidRun(st, steps)
    ensures var r := After(st, steps); Inv(r) && rid in r.rooms && rid in r.table && r.rooms[rid].ended
    decreases if st.rooms[rid].ended then 0 else |st.rooms[rid].pending|
  {
    hide Inv, Sane, RunRoomTask, Doomed;
    if st.rooms[rid].ended {
      steps := [];
    } else {
      TaskStep(st, rid);
      StepInv(st, RoomStep(rid));
      var st1 := RunRoomTask(st, rid);
      RunOne(st, RoomStep(rid));
      InvSane(st1);
      var rest := RoomRunsOut(st1, rid);
      RunConcat(st, [RoomStep(rid)], rest);
      steps := [RoomStep(rid)] + rest;
    }
  }

  lemma Announces(st: System, rid: nat)
    requires Inv(st) && rid in st.rooms && rid in st.table && st.rooms[rid].ended
    ensures st.inbox != []
  {
    hide W.Inv, W.Flat, Q.Settled, SessionsOk, ConnsOk, TimersOk, RoomsOk, AgreementOk, ResultsOk, GoneOk,
      MatchTimersOk;
  }

  lemma {:induction false} LobbyHears(st: System, rid: nat) returns (steps: seq<Step>)
    requires Inv(st) && Sane(st) && rid in st.rooms && st.rooms[rid].ended
    ensures ValidRun(st, steps)
    ensures var r := After(st, steps); Inv(r) && rid in r.rooms && r.rooms[rid].ended && rid !in r.table
    decreases |st.inbox|
  {
    hide Inv, Sane, Outcome, BackToLobby;
    if rid !in st.table {
      steps := [];
    } else {
      Announces(st, rid);
      StepInv(st, LobbyTask);
      var st1 := RunLobbyTask(st);
      RunOne(st, LobbyTask);
      InvSane(st1);
      var rest := LobbyHears(st1, rid);
      RunConcat(st, [LobbyTask], rest);
      steps := [LobbyTask] + rest;
    }
  }

  lemma GoneForfeits(st: System, pid: nat, rid: nat)
    requires Inv(st) && rid in st.rooms && rid in st.table && pid in st.rooms[rid].conns && pid !in st.sessions
    ensures Forfeited(st, rid)
  {
    hide W.Inv, W.Flat, Q.Settled, SessionsOk, ConnsOk, TimersOk, AgreementOk, EndsOk, MatchTimersOk, OutOk, PendingOk;
    assert RoomOk(st.rooms[rid]);
    assert pid in st.rooms[rid].conns.Keys;
  }

  lemma ConnsStay(st: System, steps: seq<Step>, rid: nat, pid: nat)
    requires Inv(st) && Sane(st) && ValidRun(st, steps) && rid in st.rooms && pid in st.rooms[rid].conns
    ensures rid in After(st, steps).rooms && pid in After(st, steps).rooms[rid].conns
    decreases |steps|
  {
    hide Inv, Sane, Apply, Enabled, Keeps;
    if steps != [] {
      StepInv(st, steps[0]);
      StepKeepsPlayers(st, steps[0], rid, pid);
      InvSane(Apply(st, steps[0]));
      ConnsStay(Apply(st, steps[0]), steps[1..], rid, pid);
    }
  }

  lemma StepKeepsPlayers(st: System, s: Step, rid: nat, pid: nat)
    requires Inv(st) && Sane(st) && Enabled(st, s) && Inv(Apply(st, s)) && rid in st.rooms && pid in st.rooms[rid].conns
    ensures rid in Apply(st, s).rooms && pid in Apply(st, s).rooms[rid].conns
  {
    hide Inv, Sane, FireTimer, RunLobbyTask;
    match s {
      case WheelFire => FireKeeps(st);
      case LobbyTask => LobbyTaskKeeps(st);
      case _ => MostStepsKeep(st, s);
    }
    hide Apply;
    SeatsOf(st, rid);
    SeatsOf(Apply(st, s), rid);
  }

  lemma SeatsOf(st: System, rid: nat)
    requires Inv(st) && rid in st.rooms
    ensures st.rooms[rid].conns.Keys == {st.rooms[rid].a, st.rooms[rid].b}
  {
    hide W.Inv, W.Flat, Q.Settled, SessionsOk, ConnsOk, TimersOk, AgreementOk, EndsOk, MatchTimersOk, ResultsOk, GoneOk,
      OutOk, PendingOk;
    assert RoomOk(st.rooms[rid]);
  }

  /**
   Every battle of a player who stays away is lost to the records.  From any reachable state
   in which a player in a room has no connection, some continuation destroys the session,
   ends the battle and takes the room off the table without recording a result; by
   `ForfeitNeverRecorded` none is recorded later either.
   */
  lemma ForfeitGoesUnrecorded(st: System, pid: nat, rid: nat) returns (steps: seq<Step>)
    requires Reachable(st) && Lost(st, pid, rid)
    ensures Sane(st) && ValidRun(st, steps)
    ensures
      var r := After(st, steps);
      Forfeited(r, rid) && r.rooms[rid].ended && rid !in r.table
  {
    hide Reachable, Inv, Sane, Forfeited, Lost, Doomed, ValidRun, After;
    ReachableInv(st);
    LostFacts(st, pid, rid);
    var a := ExpiryComes(st, pid, rid);
    var st1 := After(st, a);
    ConnsStay(st, a, rid, pid);
    GoneForfeits(st1, pid, rid);
    InvSane(st1);
    var b := RoomRunsOut(st1, rid);
    var st2 := After(st1, b);
    ForfeitNeverRecorded(st1, b, rid);
    InvSane(st2);
    var c := LobbyHears(st2, rid);
    ForfeitNeverRecorded(st2, c, rid);
    RunConcat(st1, b, c);
    RunConcat(st, a, b + c);
    steps := a + (b + c);
  }

  // ---------------------------------------------------------------- two runs

  function Player(conn: Conn, account: string): Session {
    Session(0, account, Some(conn), 0, InLobby, 0)
  }

  /** The lobby's part of a state, the wheel and the timers left aside. */
  ghost predicate Looks(st: System, sessions: map<nat, Session>, rooms: map<nat, Room>, inbox: seq<RoomEnd>) {
    && st.sessions == sessions && st.connOf == map[1 := 1, 2 := 2] && st.rooms == rooms && st.table == rooms.Keys
    && st.inbox == inbox && st.results == [] && st.nextRoom == 1 + |rooms|
  }

  lemma TwoLoggedIn(accA: string, accB: string) returns (steps: seq<Step>)
    ensures ValidRun(Initial(), steps)
    ensures
      var st := After(Initial(), steps);
      Looks(st, map[1 := Player(1, accA), 2 := Player(2, accB)], map[], []) && st.queue == Q.Empty
  {
    hide W.Add, W.WellFormed;
    var st1 := OnLogin(Initial(), 1, accA, 0);
    var st2 := OnLogin(st1, 2, accB, 0);
    assert Looks(st2, map[1 := Player(1, accA), 2 := Player(2, accB)], map[], []);
    RunOne(Initial(), Login(1, accA, 0));
    steps := RunMore(Initial(), [Login(1, accA, 0)], Login(2, accB, 0));
  }

  lemma FirstQueues(st: System, a: Session, b: Session)
    requires Sane(st) && Looks(st, map[1 := a, 2 := b], map[], []) && st.queue == Q.Empty && a.place == InLobby
    ensures
      var r := OnMatch(st, 1);
      Looks(r, map[1 := a.(place := Matching), 2 := b], map[], []) && Q.Settled(r.queue) && r.queue.waiting == {1}
  {
    hide W.Add, W.WellFormed, Q.PopPair, Q.Push;
    Q.PushThenPop(st.queue, 1);
    assert SessionOf(st, 1) == Some(1);
  }

  lemma OpensRoom(st: System, q: Q.Queue, a: Session, b: Session)
    requires Sane(st) && Looks(st, map[1 := a, 2 := b], map[], []) && Q.Ok(q)
    ensures
      var r := MakeRoom(st.(queue := q), 1, 2);
      var room := Room(1, 2, map[1 := a.conn, 2 := b.conn], false, false, [Start], []);
      Looks(r, map[1 := EnterRoom(a, 1), 2 := EnterRoom(b, 1)], map[1 := room], [])
  {
    hide W.WellFormed, CancelMatchTimer;
    var sa, sb := EnterRoom(a, 1), EnterRoom(b, 1);
    hide EnterRoom;
    assert map[1 := a, 2 := b][1 := sa][2 := sb] == map[1 := sa, 2 := sb];
    assert {} + {1} == {1};
  }

  lemma SecondMeets(st: System, a: Session, b: Session)
    requires Sane(st) && Looks(st, map[1 := a, 2 := b], map[], []) && Q.Settled(st.queue) && st.queue.waiting == {1}
    requires b.place == InLobby
    ensures
      var r := OnMatch(st, 2);
      var room := Room(1, 2, map[1 := a.conn, 2 := b.conn], false, false, [Start], []);
      Looks(r, map[1 := EnterRoom(a, 1), 2 := EnterRoom(b, 1)], map[1 := room], [])
  {
    hide W.Add, W.WellFormed, Q.PopPair, Q.Push, MakeRoom, Q.Settled;
    assert 1 in st.queue.waiting;
    Q.PushThenPop(st.queue, 2);
    assert SessionOf(st, 2) == Some(2);
    var st1 := Enqueue(st, 2);
    assert Looks(st1, map[1 := a, 2 := b.(place := Matching)], map[], []);
    OpensRoom(st1, Q.PopPair(st1.queue).0, a, b.(place := Matching));
    assert OnMatch(st, 2) == MakeRoom(st1.(queue := Q.PopPair(st1.queue).0), 1, 2);
  }

  function Fighter(conn: Conn, account: string): Session {
    Session(0, account, Some(conn), 1, InRoom, 0)
  }

  const Duel: Room := Room(1, 2, map[1 := Some(1), 2 := Some(2)], false, false, [Start], [])

  lemma TwoMatched(accA: string, accB: string) returns (steps: seq<Step>)
    ensures ValidRun(Initial(), steps)
    ensures Looks(After(Initial(), steps), map[1 := Fighter(1, accA), 2 := Fighter(2, accB)], map[1 := Duel], [])
  {
    hide ValidRun, After, OnMatch, Sane, Initial;
    var s2 := TwoLoggedIn(accA, accB);
    var st2 := After(Initial(), s2);
    var a, b := Player(1, accA), Player(2, accB);
    FirstQueues(st2, a, b);
    var s3 := RunMore(Initial(), s2, MatchReq(1));
    var st3 := After(Initial(), s3);
    SecondMeets(st3, a.(place := Matching), b);
    steps := RunMore(Initial(), s3, MatchReq(2));
  }

  /** A run from the start: two players log in and are matched, one disconnects and stays
      away; the battle ends by forfeit and is not recorded. */
  lemma UnrecordedForfeit(accA: string, accB: string) returns (steps: seq<Step>)
    ensures ValidRun(Initial(), steps)
    ensures
      var st := After(Initial(), steps);
      Forfeited(st, 1) && st.rooms[1].ended && 1 !in st.table
  {
    hide ValidRun, After, Sane, Initial, Forfeited, Lost, OnDisconnect;
    var s4 := TwoMatched(accA, accB);
    var st4 := After(Initial(), s4);
    Drops(st4, accA, accB);
    var s5 := RunMore(Initial(), s4, Disconnect(1));
    var st5 := After(Initial(), s5);
    ReachedIs(s5, st5);
    var rest := ForfeitGoesUnrecorded(st5, 1, 1);
    RunConcat(Initial(), s5, rest);
    steps := s5 + rest;
  }

  lemma ReachedIs(steps: seq<Step>, st: System)
    requires ValidRun(Initial(), steps) && After(Initial(), steps) == st
    ensures Reachable(st)
  {
    hide ValidRun, After, Initial;
  }

  lemma Drops(st: System, accA: string, accB: string)
    requires Sane(st) && Looks(st, map[1 := Fighter(1, accA), 2 := Fighter(2, accB)], map[1 := Duel], [])
    ensures Lost(OnDisconnect(st, 1), 1, 1)
  {
    hide W.Add, W.WellFormed, Post;
  }

  /** A run from the start: the winner has logged in with an empty account name; the battle is
      fought out and is not recorded. */
  lemma UnrecordedEmptyAccount(accB: string) returns (steps: seq<Step>)
    ensures ValidRun(Initial(), steps)
    ensures
      var st := After(Initial(), steps);
      1 in st.rooms && st.rooms[1].ended && 1 !in st.table && st.results == []
  {
    hide ValidRun, After, Sane, Initial, RunRoomTask, TickRoom, RunLobbyTask;
    var s4 := TwoMatched("", accB);
    var st4 := After(Initial(), s4);
    var sessions := map[1 := Fighter(1, ""), 2 := Fighter(2, accB)];
    Starts(st4, sessions);
    var s5 := RunMore(Initial(), s4, RoomStep(1));
    var st5 := After(Initial(), s5);
    WinsAtOnce(st5, sessions);
    var s6 := RunMore(Initial(), s5, RoomTick(1, false, 1));
    var st6 := After(Initial(), s6);
    ReachedIs(s6, st6);
    RecordedIff(st6);
    steps := RunMore(Initial(), s6, LobbyTask);
    LeavesTable(st6);
  }

  const Started: Room := Duel.(ticking := true, pending := [], out := [EnterMsg])

  lemma Starts(st: System, sessions: map<nat, Session>)
    requires Sane(st) && Looks(st, sessions, map[1 := Duel], [])
    ensures Looks(RunRoomTask(st, 1), sessions, map[1 := Started], [])
  {
    hide Sane;
    assert st.rooms[1] == Duel && Duel.pending[1..] == [] && [] + [EnterMsg] == [EnterMsg];
    assert RunRoomTask(st, 1) == SetRoom(st, 1, Started);
    assert map[1 := Duel][1 := Started] == map[1 := Started];
    assert map[1 := Duel].Keys == map[1 := Started].Keys;
  }

  lemma WinsAtOnce(st: System, sessions: map<nat, Session>)
    requires Sane(st) && Looks(st, sessions, map[1 := Started], [])
    ensures
      var r := TickRoom(st, 1, false, 1);
      r.sessions == sessions && r.inbox == [RoomEnd(1, 1)] && r.results == [] && 1 in r.rooms && r.rooms[1].ended
      && r.rooms[1].a == 1
  {
    hide Sane, TickRoom;
    assert st.rooms[1] == Started;
    TickIsAfterDelta(st, 1, false, 1);
    assert [] + [RoomEnd(1, 1)] == [RoomEnd(1, 1)];
    assert AfterEnd(AfterDelta(Started, false), 1).ended;
  }

  lemma LeavesTable(st: System)
    requires Sane(st) && st.inbox != []
    ensures RunLobbyTask(st).rooms == st.rooms && st.inbox[0].rid !in RunLobbyTask(st).table
  {
    hide Sane, Outcome, BackToLobby;
  }
}
