/**
 What every reachable state of the lobby and its rooms satisfies.

 The invariant is a conjunction of predicates over separate parts of the state, and each
 kind of change has its own small lemmas.
 */
module LobbyInv {
  import opened Prelude
  import opened Lobby
  import W = WheelModel
  import Q = QueueModel
  import M = SimModel

  // ---------------------------------------------------------------- the invariant

  /** Queued iff matching; in a room iff the session names one; nobody disconnected queues. */
  ghost predicate SessionsOk(sessions: map<nat, Session>, waiting: set<nat>, nextPlayer: nat) {
    && 1 <= nextPlayer
    && (forall pid | pid in sessions ::
          && 1 <= pid < nextPlayer
          && (sessions[pid].place == Matching <==> pid in waiting)
          && (sessions[pid].place == InRoom <==> sessions[pid].roomId != 0)
          && (sessions[pid].conn == None ==> sessions[pid].place != Matching))
    && (forall pid | pid in waiting :: pid in sessions)
  }

  /** A mapped connection belongs to a session that holds it. */
  ghost predicate ConnsOk(connOf: map<Conn, nat>, sessions: map<nat, Session>) {
    forall c | c in connOf :: connOf[c] in sessions && sessions[connOf[c]].conn == Some(c)
  }

  /** A session is disconnected iff it owns a live expiry timer, due 300 ticks after the
      disconnect; it owns exactly one, and every live expiry timer is owned. */
  ghost predicate TimersOk(sessions: map<nat, Session>, timers: map<nat, W.Timer>, dropTick: map<nat, nat>) {
    && 0 !in timers
    && (forall pid | pid in sessions ::
          if sessions[pid].conn == None then
            && sessions[pid].expireTimer in timers && pid in dropTick
            && timers[sessions[pid].expireTimer] == W.Timer(dropTick[pid] + KEEP_TICKS, W.ExpireSession(pid))
          else sessions[pid].expireTimer == 0)
    && (forall t | t in timers && timers[t].cb.ExpireSession? ::
          && timers[t].cb.pid in sessions
          && sessions[timers[t].cb.pid].conn == None
          && sessions[timers[t].cb.pid].expireTimer == t)
  }

  /** A recorded match timer that is still live is a match timer of that player. */
  ghost predicate MatchTimersOk(matchTimer: map<nat, nat>, timers: map<nat, W.Timer>, nextId: nat) {
    forall pid | pid in matchTimer ::
      && matchTimer[pid] < nextId
      && (matchTimer[pid] in timers ==> timers[matchTimer[pid]].cb == W.MatchTimeout(pid))
  }

  ghost predicate MemberOrNone(room: Room, w: nat) {
    w == 0 || w == room.a || w == room.b
  }

  /** The battle end is broadcast at most once, and nothing is broadcast after it. */
  ghost predicate OutOk(room: Room) {
    && (room.ended ==> |room.out| > 0 && room.out[|room.out| - 1].EndMsg?)
    && (forall i | 0 <= i < |room.out| - (if room.ended then 1 else 0) :: !room.out[i].EndMsg?)
  }

  ghost predicate PendingOk(room: Room) {
    && (forall i | 0 <= i < |room.pending| && room.pending[i].ForceEnd? :: MemberOrNone(room, room.pending[i].winner))
    && (forall i | 1 <= i < |room.pending| :: room.pending[i] != Start)
    && (|room.pending| > 0 && room.pending[0] == Start ==> !room.ended && !room.ticking)
  }

  ghost predicate RoomOk(room: Room) {
    && room.a != room.b && 1 <= room.a && 1 <= room.b
    && room.conns.Keys == {room.a, room.b}
    && OutOk(room) && PendingOk(room)
  }

  ghost predicate RoomsOk(rooms: map<nat, Room>, table: set<nat>, nextRoom: nat, nextPlayer: nat) {
    && 1 <= nextRoom
    && (forall rid | rid in rooms ::
          1 <= rid < nextRoom && RoomOk(rooms[rid]) && rooms[rid].a < nextPlayer && rooms[rid].b < nextPlayer)
    && (forall rid | rid in table :: rid in rooms)
  }

  /** The connection a player will have once every posted task has run. */
  function Bound(cur: Option<Conn>, tasks: seq<RoomTask>, pid: nat): Option<Conn>
    decreases |tasks|
  {
    if tasks == [] then cur else Bound(Effect(tasks[0], pid, cur), tasks[1..], pid)
  }

  function Binding(room: Room, pid: nat): Option<Conn>
    requires pid in room.conns
  {
    Bound(room.conns[pid], room.pending, pid)
  }

  /** Agreement: for a room in the table, each player's session, if it still exists, is in
      that room, and the room will end up sending to exactly the session's connection; to a
      player whose session is gone it will end up sending nothing. */
  ghost predicate Agrees(sessions: map<nat, Session>, rid: nat, room: Room, pid: nat) {
    && pid in room.conns
    && (pid in sessions ==> sessions[pid].roomId == rid && Binding(room, pid) == sessions[pid].conn)
    && (pid !in sessions ==> Binding(room, pid) == None)
  }

  ghost predicate AgreementOk(sessions: map<nat, Session>, rooms: map<nat, Room>, table: set<nat>) {
    && (forall pid | pid in sessions && sessions[pid].roomId != 0 ::
          && sessions[pid].roomId in table && sessions[pid].roomId in rooms
          && pid in rooms[sessions[pid].roomId].conns)
    && (forall rid, pid | rid in table && rid in rooms && pid in rooms[rid].conns ::
          Agrees(sessions, rid, rooms[rid], pid))
  }

  ghost predicate Announced(inbox: seq<RoomEnd>, rid: nat) {
    exists i | 0 <= i < |inbox| :: inbox[i].rid == rid
  }

  /** A room leaves the table by exactly one message from it, sent when it ends. */
  ghost predicate EndsOk(rooms: map<nat, Room>, table: set<nat>, inbox: seq<RoomEnd>) {
    && (forall i | 0 <= i < |inbox| ::
          && inbox[i].rid in rooms && inbox[i].rid in table
          && rooms[inbox[i].rid].ended
          && MemberOrNone(rooms[inbox[i].rid], inbox[i].winner))
    && (forall i, j | 0 <= i < j < |inbox| :: inbox[i].rid != inbox[j].rid)
    && (forall rid | rid in rooms && !rooms[rid].ended :: rid in table)
    && (forall rid | rid in rooms && rooms[rid].ended && rid in table :: Announced(inbox, rid))
  }

  /** At most one result per room, whose winner and loser are its two players. */
  ghost predicate ResultsOk(rooms: map<nat, Room>, table: set<nat>, results: seq<Result>) {
    && (forall i | 0 <= i < |results| ::
          && results[i].rid in rooms && results[i].rid !in table
          && results[i].winner != results[i].loser
          && {results[i].winner, results[i].loser} == rooms[results[i].rid].conns.Keys)
    && (forall i, j | 0 <= i < j < |results| :: results[i].rid != results[j].rid)
  }

  /** Every player ever admitted has a session, or lost it 300 ticks after a disconnect. */
  ghost predicate GoneOk(sessions: map<nat, Session>, gone: map<nat, nat>, dropTick: map<nat, nat>, nextPlayer: nat) {
    && (forall pid | 1 <= pid < nextPlayer :: pid in sessions <==> pid !in gone)
    && (forall pid | pid in gone :: pid < nextPlayer && pid in dropTick && gone[pid] == dropTick[pid] + KEEP_TICKS)
  }

  ghost predicate Inv(st: System) {
    && W.Inv(st.wheel) && Q.Settled(st.queue)
    && SessionsOk(st.sessions, st.queue.waiting, st.nextPlayer)
    && ConnsOk(st.connOf, st.sessions)
    && TimersOk(st.sessions, W.Flat(st.wheel), st.dropTick)
    && MatchTimersOk(st.matchTimer, W.Flat(st.wheel), st.wheel.nextId)
    && RoomsOk(st.rooms, st.table, st.nextRoom, st.nextPlayer)
    && AgreementOk(st.sessions, st.rooms, st.table)
    && EndsOk(st.rooms, st.table, st.inbox)
    && ResultsOk(st.rooms, st.table, st.results)
    && GoneOk(st.sessions, st.gone, st.dropTick, st.nextPlayer)
  }

  lemma InvSane(st: System)
    requires Inv(st)
    ensures Sane(st)
  {
  }

  lemma InitialInv()
    ensures Inv(Initial())
  {
    W.InitInv();
    W.AddRefines(W.Init(), SWEEP_MS, W.Sweep);
    assert W.Flat(W.Init()) == map[];
  }

  // ---------------------------------------------------------------- posting to a room

  lemma {:induction false} BoundAppend(cur: Option<Conn>, tasks: seq<RoomTask>, t: RoomTask, pid: nat)
    ensures Bound(cur, tasks + [t], pid) == Effect(t, pid, Bound(cur, tasks, pid))
    decreases |tasks|
  {
    if tasks == [] {
      assert tasks + [t] == [t];
      assert [t][1..] == [];
    } else {
      assert (tasks + [t])[0] == tasks[0] && (tasks + [t])[1..] == tasks[1..] + [t];
      BoundAppend(Effect(tasks[0], pid, cur), tasks[1..], t, pid);
    }
  }

  /** A task the lobby may post. */
  ghost predicate Postable(room: Room, t: RoomTask) {
    t != Start && (t.ForceEnd? ==> MemberOrNone(room, t.winner))
  }

  lemma PostRooms(rooms: map<nat, Room>, table: set<nat>, nextRoom: nat, nextPlayer: nat, rid: nat, t: RoomTask)
    requires RoomsOk(rooms, table, nextRoom, nextPlayer) && rid in table && Postable(rooms[rid], t)
    ensures RoomsOk(Post(rooms, table, rid, t), table, nextRoom, nextPlayer)
  {
    var room := rooms[rid];
    var room' := room.(pending := room.pending + [t]);
    assert PendingOk(room') by {
      forall i | 0 <= i < |room'.pending| && room'.pending[i].ForceEnd?
        ensures MemberOrNone(room', room'.pending[i].winner)
      {
        if i < |room.pending| {
          assert room'.pending[i] == room.pending[i];
        }
      }
    }
  }

  lemma PostEnds(rooms: map<nat, Room>, table: set<nat>, inbox: seq<RoomEnd>, results: seq<Result>, rid: nat,
                 t: RoomTask)
    requires EndsOk(rooms, table, inbox) && ResultsOk(rooms, table, results)
    ensures EndsOk(Post(rooms, table, rid, t), table, inbox) && ResultsOk(Post(rooms, table, rid, t), table, results)
  {
  }

  /** What posting does to the connection a player will end up with. */
  lemma PostBinding(rooms: map<nat, Room>, table: set<nat>, rid: nat, t: RoomTask, r: nat, pid: nat)
    requires r in table && r in rooms && pid in rooms[r].conns
    ensures
      var rooms' := Post(rooms, table, rid, t);
      r in rooms' && rooms'[r].conns == rooms[r].conns &&
      Binding(rooms'[r], pid) == if r == rid then Effect(t, pid, Binding(rooms[r], pid)) else Binding(rooms[r], pid)
  {
    if r == rid {
      BoundAppend(rooms[r].conns[pid], rooms[r].pending, t, pid);
    }
  }

  /** Session `pid` changes its connection and the room it is in is told so. */
  lemma PostAgreement(sessions: map<nat, Session>, rooms: map<nat, Room>, table: set<nat>, pid: nat, s: Session,
                      t: RoomTask)
    requires AgreementOk(sessions, rooms, table) && pid in sessions && sessions[pid].roomId != 0
    requires s.roomId == sessions[pid].roomId
    requires Effect(t, pid, sessions[pid].conn) == s.conn
    requires forall p, cur | p != pid :: Effect(t, p, cur) == cur
    ensures AgreementOk(sessions[pid := s], Post(rooms, table, s.roomId, t), table)
  {
    var rooms' := Post(rooms, table, s.roomId, t);
    forall r, p | r in table && r in rooms' && p in rooms'[r].conns
      ensures Agrees(sessions[pid := s], r, rooms'[r], p)
    {
      assert Agrees(sessions, r, rooms[r], p);
      PostBinding(rooms, table, s.roomId, t, r, p);
    }
  }

  /** Session `pid` changes, but not its room, and if it is in one not its connection. */
  lemma SessionAgreement(sessions: map<nat, Session>, rooms: map<nat, Room>, table: set<nat>, pid: nat, s: Session)
    requires AgreementOk(sessions, rooms, table) && pid in sessions
    requires s.roomId == sessions[pid].roomId && (s.roomId != 0 ==> s.conn == sessions[pid].conn)
    requires 0 !in table
    ensures AgreementOk(sessions[pid := s], rooms, table)
  {
    forall r, p | r in table && r in rooms && p in rooms[r].conns ensures Agrees(sessions[pid := s], r, rooms[r], p) {
      assert Agrees(sessions, r, rooms[r], p);
    }
  }

  // ---------------------------------------------------------------- lobby events

  lemma NewPlayer(st: System, s: Session, c: Conn)
    requires Inv(st) && s.roomId == 0 && s.conn == Some(c) && s.place == InLobby && s.expireTimer == 0
    ensures
      var sessions := st.sessions[st.nextPlayer := s];
      && SessionsOk(sessions, st.queue.waiting, st.nextPlayer + 1)
      && ConnsOk(st.connOf[c := st.nextPlayer], sessions)
      && TimersOk(sessions, W.Flat(st.wheel), st.dropTick)
      && RoomsOk(st.rooms, st.table, st.nextRoom, st.nextPlayer + 1)
      && GoneOk(sessions, st.gone, st.dropTick, st.nextPlayer + 1)
  {
    hide W.Inv, Q.Settled, W.Flat, AgreementOk, EndsOk, ResultsOk, RoomOk;
  }

  /** A player without a room, unknown to every room, joins. */
  lemma NewPlayerAgreement(st: System, s: Session)
    requires Inv(st) && s.roomId == 0
    ensures AgreementOk(st.sessions[st.nextPlayer := s], st.rooms, st.table)
  {
    hide W.Inv, Q.Settled, W.Flat, EndsOk, ResultsOk, Binding, TimersOk, GoneOk, ConnsOk, OutOk, PendingOk;
    var sessions := st.sessions[st.nextPlayer := s];
    forall r, p | r in st.table && r in st.rooms && p in st.rooms[r].conns ensures Agrees(sessions, r, st.rooms[r], p) {
      assert Agrees(st.sessions, r, st.rooms[r], p);
      assert RoomOk(st.rooms[r]);
      assert p in st.rooms[r].conns.Keys;
    }
  }

  lemma LoginInv(st: System, c: Conn, account: string, token: nat)
    requires Inv(st)
    ensures Inv(OnLogin(st, c, account, token))
  {
    hide W.Inv, W.Flat, Q.Settled, SessionsOk, ConnsOk, TimersOk, RoomsOk, AgreementOk, EndsOk, ResultsOk, GoneOk,
      MatchTimersOk;
    var s := Session(token, account, Some(c), 0, InLobby, 0);
    InvSane(st);
    NewPlayer(st, s, c);
    NewPlayerAgreement(st, s);
  }

  lemma FewerTimers(before: map<nat, nat>, after: map<nat, nat>, timers: map<nat, W.Timer>, t: nat, nextId: nat)
    requires MatchTimersOk(before, timers, nextId)
    requires forall pid | pid in after :: pid in before && after[pid] == before[pid]
    ensures MatchTimersOk(after, timers - {t}, nextId)
  {
  }

  lemma MoreTimers(matchTimer: map<nat, nat>, timers: map<nat, W.Timer>, nextId: nat, t: W.Timer)
    requires MatchTimersOk(matchTimer, timers, nextId)
    ensures MatchTimersOk(matchTimer, timers[nextId := t], nextId + 1)
  {
  }

  // Reconnect: the timer goes, the session gets the connection, the room is told.

  lemma ReconnectTimers(sessions: map<nat, Session>, timers: map<nat, W.Timer>, dropTick: map<nat, nat>, pid: nat,
                        s: Session)
    requires TimersOk(sessions, timers, dropTick) && pid in sessions && sessions[pid].conn == None
    requires s.conn.Some? && s.expireTimer == 0
    ensures TimersOk(sessions[pid := s], timers - {sessions[pid].expireTimer}, dropTick)
    ensures sessions[pid].expireTimer != 0
  {
  }

  lemma ReconnectSessions(st: System, pid: nat, c: Conn)
    requires SessionsOk(st.sessions, st.queue.waiting, st.nextPlayer) && ConnsOk(st.connOf, st.sessions)
    requires GoneOk(st.sessions, st.gone, st.dropTick, st.nextPlayer)
    requires pid in st.sessions && st.sessions[pid].conn == None
    ensures
      var sessions := st.sessions[pid := st.sessions[pid].(conn := Some(c), expireTimer := 0)];
      && SessionsOk(sessions, st.queue.waiting, st.nextPlayer)
      && ConnsOk(st.connOf[c := pid], sessions)
      && GoneOk(sessions, st.gone, st.dropTick, st.nextPlayer)
  {
  }

  lemma NoRoomZero(st: System)
    requires Inv(st)
    ensures 0 !in st.table
    ensures forall rid | rid in st.table :: rid in st.rooms
  {
    hide W.Inv, Q.Settled, W.Flat, EndsOk, ResultsOk, TimersOk, GoneOk, ConnsOk, AgreementOk, RoomOk;
  }

  lemma InRoomFacts(st: System, pid: nat)
    requires Inv(st) && pid in st.sessions
    ensures st.sessions[pid].place == InRoom <==> st.sessions[pid].roomId != 0
    ensures st.sessions[pid].place == InRoom ==>
      && st.sessions[pid].roomId in st.table && st.sessions[pid].roomId in st.rooms
      && pid in st.rooms[st.sessions[pid].roomId].conns
  {
    hide W.Inv, Q.Settled, W.Flat, EndsOk, ResultsOk, TimersOk, GoneOk, ConnsOk, RoomsOk, Agrees;
  }

  lemma ReconnectInv(st: System, c: Conn, pid: nat, token: nat)
    requires Inv(st)
    ensures Sane(st) && Inv(OnReconnect(st, c, pid, token))
  {
    hide W.Inv, W.Flat, Q.Settled, SessionsOk, ConnsOk, TimersOk, RoomsOk, AgreementOk, EndsOk, ResultsOk, GoneOk,
      MatchTimersOk;
    InvSane(st);
    if Accepts(st, pid, token) {
      var s := st.sessions[pid];
      var s' := s.(conn := Some(c), expireTimer := 0);
      ReconnectTimers(st.sessions, W.Flat(st.wheel), st.dropTick, pid, s');
      W.CancelRefines(st.wheel, s.expireTimer);
      FewerTimers(st.matchTimer, st.matchTimer, W.Flat(st.wheel), s.expireTimer, st.wheel.nextId);
      ReconnectSessions(st, pid, c);
      InRoomFacts(st, pid);
      NoRoomZero(st);
      if s.place == InRoom {
        var t := Rebind(pid, c);
        PostRooms(st.rooms, st.table, st.nextRoom, st.nextPlayer, s.roomId, t);
        PostEnds(st.rooms, st.table, st.inbox, st.results, s.roomId, t);
        PostAgreement(st.sessions, st.rooms, st.table, pid, s', t);
      } else {
        SessionAgreement(st.sessions, st.rooms, st.table, pid, s');
      }
    }
  }

  // Disconnect: the connection goes, the timer comes, the room is told.

  lemma DropTimers(sessions: map<nat, Session>, timers: map<nat, W.Timer>, dropTick: map<nat, nat>, pid: nat,
                   s: Session, now: nat)
    requires TimersOk(sessions, timers, dropTick) && pid in sessions && sessions[pid].conn.Some?
    requires s.conn == None && s.expireTimer !in timers && s.expireTimer != 0
    ensures TimersOk(sessions[pid := s],
                     timers[s.expireTimer := W.Timer(now + KEEP_TICKS, W.ExpireSession(pid))],
                     dropTick[pid := now])
  {
  }

  lemma DropSessions(st: System, c: Conn, timer: nat)
    requires SessionsOk(st.sessions, st.queue.waiting, st.nextPlayer) && ConnsOk(st.connOf, st.sessions)
    requires GoneOk(st.sessions, st.gone, st.dropTick, st.nextPlayer)
    requires c in st.connOf
    ensures
      var pid := st.connOf[c];
      pid in st.sessions && st.sessions[pid].conn == Some(c) &&
      var s := st.sessions[pid];
      var waiting := if s.place == Matching then st.queue.waiting - {pid} else st.queue.waiting;
      var s' := s.(conn := None, place := if s.place == Matching then InLobby else s.place, expireTimer := timer);
      && SessionsOk(st.sessions[pid := s'], waiting, st.nextPlayer)
      && ConnsOk(st.connOf - {c}, st.sessions[pid := s'])
      && GoneOk(st.sessions[pid := s'], st.gone, st.dropTick[pid := st.wheel.now], st.nextPlayer)
  {
  }

  lemma KeepTicks()
    ensures W.EffectiveTicks(SESSION_KEEP_MS) == KEEP_TICKS
  {
  }

  /** The wheel's share of a disconnect. */
  lemma DropWheel(st: System, pid: nat, s: Session)
    requires W.Inv(st.wheel) && W.WellFormed(st.wheel)
    requires TimersOk(st.sessions, W.Flat(st.wheel), st.dropTick)
    requires MatchTimersOk(st.matchTimer, W.Flat(st.wheel), st.wheel.nextId)
    requires pid in st.sessions && st.sessions[pid].conn.Some? && s.conn == None && s.expireTimer == st.wheel.nextId
    ensures
      var r := W.Add(st.wheel, SESSION_KEEP_MS, W.ExpireSession(pid));
      && W.Inv(r)
      && TimersOk(st.sessions[pid := s], W.Flat(r), st.dropTick[pid := st.wheel.now])
      && MatchTimersOk(st.matchTimer, W.Flat(r), r.nextId)
  {
    hide W.Inv, W.Flat, W.WellFormed, W.Add, W.EffectiveTicks, TimersOk, MatchTimersOk;
    KeepTicks();
    W.AddRefines(st.wheel, SESSION_KEEP_MS, W.ExpireSession(pid));
    W.IdsBelowNext(st.wheel);
    DropTimers(st.sessions, W.Flat(st.wheel), st.dropTick, pid, s, st.wheel.now);
    MoreTimers(st.matchTimer, W.Flat(st.wheel), st.wheel.nextId,
      W.Timer(st.wheel.now + KEEP_TICKS, W.ExpireSession(pid)));
  }

  lemma DisconnectInv(st: System, c: Conn)
    requires Inv(st)
    ensures Sane(st) && Inv(OnDisconnect(st, c))
  {
    hide W.Inv, W.Flat, Q.Settled, SessionsOk, ConnsOk, TimersOk, RoomsOk, AgreementOk, EndsOk, ResultsOk, GoneOk,
      MatchTimersOk;
    InvSane(st);
    if c in st.connOf {
      var pid := st.connOf[c];
      DropSessions(st, c, st.wheel.nextId);
      var s := st.sessions[pid];
      var s' := s.(conn := None, place := if s.place == Matching then InLobby else s.place,
        expireTimer := st.wheel.nextId);
      DropWheel(st, pid, s');
      hide W.Add, W.WellFormed, Q.Ok, Q.Remove;
      Q.RemoveSettled(st.queue, pid);
      InRoomFacts(st, pid);
      NoRoomZero(st);
      if s.place == InRoom {
        var t := Drop(pid);
        PostRooms(st.rooms, st.table, st.nextRoom, st.nextPlayer, s.roomId, t);
        PostEnds(st.rooms, st.table, st.inbox, st.results, s.roomId, t);
        PostAgreement(st.sessions, st.rooms, st.table, pid, s', t);
      } else {
        SessionAgreement(st.sessions, st.rooms, st.table, pid, s');
      }
    }
  }

  lemma InputInv(st: System, c: Conn, input: M.Input)
    requires Inv(st)
    ensures Sane(st) && Inv(OnInput(st, c, input))
  {
    hide W.Inv, W.Flat, Q.Settled, SessionsOk, ConnsOk, TimersOk, RoomsOk, AgreementOk, EndsOk, ResultsOk, GoneOk,
      MatchTimersOk;
    InvSane(st);
    if SessionOf(st, c).Some? {
      var pid := SessionOf(st, c).value;
      var s := st.sessions[pid];
      InRoomFacts(st, pid);
      NoRoomZero(st);
      if s.place == InRoom {
        var t := Input(pid, input);
        PostRooms(st.rooms, st.table, st.nextRoom, st.nextPlayer, s.roomId, t);
        PostEnds(st.rooms, st.table, st.inbox, st.results, s.roomId, t);
        PostAgreement(st.sessions, st.rooms, st.table, pid, s, t);
        assert st.sessions[pid := s] == st.sessions;
      }
    }
  }

  // ---------------------------------------------------------------- matching

  lemma OtherTimer(sessions: map<nat, Session>, timers: map<nat, W.Timer>, dropTick: map<nat, nat>, id: nat, t: W.Timer)
    requires TimersOk(sessions, timers, dropTick) && id != 0 && id !in timers && !t.cb.ExpireSession?
    ensures TimersOk(sessions, timers[id := t], dropTick)
  {
  }

  lemma OtherTimerGone(sessions: map<nat, Session>, timers: map<nat, W.Timer>, dropTick: map<nat, nat>, id: nat)
    requires TimersOk(sessions, timers, dropTick) && (id in timers ==> !timers[id].cb.ExpireSession?)
    ensures TimersOk(sessions, timers - {id}, dropTick)
  {
  }

  /** Only the place and the room of a session change. */
  lemma MovedTimers(sessions: map<nat, Session>, timers: map<nat, W.Timer>, dropTick: map<nat, nat>, pid: nat,
                    s: Session)
    requires TimersOk(sessions, timers, dropTick) && pid in sessions
    requires s.conn == sessions[pid].conn && s.expireTimer == sessions[pid].expireTimer
    ensures TimersOk(sessions[pid := s], timers, dropTick)
  {
  }

  lemma MovedConns(connOf: map<Conn, nat>, sessions: map<nat, Session>, pid: nat, s: Session)
    requires ConnsOk(connOf, sessions) && pid in sessions && s.conn == sessions[pid].conn
    ensures ConnsOk(connOf, sessions[pid := s])
  {
  }

  lemma MovedGone(sessions: map<nat, Session>, gone: map<nat, nat>, dropTick: map<nat, nat>, nextPlayer: nat, pid: nat,
                  s: Session)
    requires GoneOk(sessions, gone, dropTick, nextPlayer) && pid in sessions
    ensures GoneOk(sessions[pid := s], gone, dropTick, nextPlayer)
  {
  }

  /** The state of `OnMatch` before it asks the queue for a pair: the invariant but for the queue. */
  ghost predicate Queued(st: System) {
    && W.Inv(st.wheel)
    && ConnsOk(st.connOf, st.sessions)
    && TimersOk(st.sessions, W.Flat(st.wheel), st.dropTick)
    && MatchTimersOk(st.matchTimer, W.Flat(st.wheel), st.wheel.nextId)
    && RoomsOk(st.rooms, st.table, st.nextRoom, st.nextPlayer)
    && AgreementOk(st.sessions, st.rooms, st.table)
    && EndsOk(st.rooms, st.table, st.inbox)
    && ResultsOk(st.rooms, st.table, st.results)
    && GoneOk(st.sessions, st.gone, st.dropTick, st.nextPlayer)
  }

  lemma EnqueueMatchTimers(matchTimer: map<nat, nat>, timers: map<nat, W.Timer>, nextId: nat, pid: nat, e: nat)
    requires MatchTimersOk(matchTimer, timers, nextId)
    ensures MatchTimersOk(matchTimer[pid := nextId], timers[nextId := W.Timer(e, W.MatchTimeout(pid))], nextId + 1)
  {
  }

  lemma EnqueueQueued(st: System, pid: nat)
    requires Inv(st) && pid in st.sessions && st.sessions[pid].place == InLobby
    ensures Sane(st) && Queued(Enqueue(st, pid))
    ensures SessionsOk(Enqueue(st, pid).sessions, st.queue.waiting + {pid}, st.nextPlayer) <==>
      st.sessions[pid].conn != None
  {
    hide W.Inv, W.Flat, Q.Settled, SessionsOk, ConnsOk, TimersOk, RoomsOk, AgreementOk, EndsOk, ResultsOk, GoneOk,
      MatchTimersOk;
    InvSane(st);
    NoRoomZero(st);
    EnqueueSessions(st, pid);
    var s := st.sessions[pid].(place := Matching);
    var e := st.wheel.now + W.EffectiveTicks(MATCH_TIMEOUT_MS);
    W.AddRefines(st.wheel, MATCH_TIMEOUT_MS, W.MatchTimeout(pid));
    W.IdsBelowNext(st.wheel);
    MovedTimers(st.sessions, W.Flat(st.wheel), st.dropTick, pid, s);
    OtherTimer(st.sessions[pid := s], W.Flat(st.wheel), st.dropTick, st.wheel.nextId, W.Timer(e, W.MatchTimeout(pid)));
    MovedConns(st.connOf, st.sessions, pid, s);
    MovedGone(st.sessions, st.gone, st.dropTick, st.nextPlayer, pid, s);
    SessionAgreement(st.sessions, st.rooms, st.table, pid, s);
    EnqueueMatchTimers(st.matchTimer, W.Flat(st.wheel), st.wheel.nextId, pid, e);
  }

  lemma EnqueueSessions(st: System, pid: nat)
    requires SessionsOk(st.sessions, st.queue.waiting, st.nextPlayer) && pid in st.sessions
    requires st.sessions[pid].place == InLobby
    ensures SessionsOk(st.sessions[pid := st.sessions[pid].(place := Matching)], st.queue.waiting + {pid},
      st.nextPlayer)
            <==> st.sessions[pid].conn != None
  {
    var sessions := st.sessions[pid := st.sessions[pid].(place := Matching)];
    if st.sessions[pid].conn != None {
      assert SessionsOk(sessions, st.queue.waiting + {pid}, st.nextPlayer);
    } else {
      assert sessions[pid].conn == None && sessions[pid].place == Matching;
    }
  }

  // A room is made for two players.

  lemma CancelMatchTimerOk(st: System, wheel: W.Wheel, timers: map<nat, nat>, pid: nat)
    requires W.Inv(wheel) && W.WellFormed(wheel)
    requires TimersOk(st.sessions, W.Flat(wheel), st.dropTick) && MatchTimersOk(timers, W.Flat(wheel), wheel.nextId)
    ensures var r := CancelMatchTimer(wheel, timers, pid);
      && W.Inv(r) && r.nextId == wheel.nextId
      && TimersOk(st.sessions, W.Flat(r), st.dropTick) && MatchTimersOk(timers - {pid}, W.Flat(r), r.nextId)
  {
    hide W.Inv, W.Flat, W.WellFormed;
    if pid in timers {
      W.CancelRefines(wheel, timers[pid]);
      OtherTimerGone(st.sessions, W.Flat(wheel), st.dropTick, timers[pid]);
      FewerTimers(timers, timers - {pid}, W.Flat(wheel), timers[pid], wheel.nextId);
    }
  }

  ghost predicate Matchable(sessions: map<nat, Session>, a: nat, b: nat) {
    && a != b && a in sessions && b in sessions
    && sessions[a].roomId == 0 && sessions[b].roomId == 0
    && sessions[a].place == Matching && sessions[b].place == Matching
  }

  lemma EnterSessions(sessions: map<nat, Session>, waiting: set<nat>, nextPlayer: nat, a: nat, b: nat, rid: nat)
    requires SessionsOk(sessions, waiting, nextPlayer) && Matchable(sessions, a, b) && rid != 0
    ensures SessionsOk(sessions[a := EnterRoom(sessions[a], rid)][b := EnterRoom(sessions[b], rid)], waiting - {a, b},
      nextPlayer)
  {
  }

  function NewRoom(sessions: map<nat, Session>, a: nat, b: nat): Room
    requires a in sessions && b in sessions
  {
    Room(a, b, map[a := sessions[a].conn, b := sessions[b].conn], false, false, [Start], [])
  }

  lemma NewRoomOk(st: System, a: nat, b: nat)
    requires RoomsOk(st.rooms, st.table, st.nextRoom, st.nextPlayer) && Matchable(st.sessions, a, b)
    requires 1 <= a < st.nextPlayer && 1 <= b < st.nextPlayer
    ensures RoomsOk(st.rooms[st.nextRoom := NewRoom(st.sessions, a, b)], st.table + {st.nextRoom}, st.nextRoom + 1,
      st.nextPlayer)
  {
    var room := NewRoom(st.sessions, a, b);
    assert room.conns.Keys == {a, b};
    assert RoomOk(room);
  }

  lemma NewRoomEnds(st: System, room: Room)
    requires RoomsOk(st.rooms, st.table, st.nextRoom, st.nextPlayer)
    requires EndsOk(st.rooms, st.table, st.inbox) && ResultsOk(st.rooms, st.table, st.results) && !room.ended
    ensures EndsOk(st.rooms[st.nextRoom := room], st.table + {st.nextRoom}, st.inbox)
    ensures ResultsOk(st.rooms[st.nextRoom := room], st.table + {st.nextRoom}, st.results)
  {
    hide RoomOk;
  }

  lemma NewRoomAgreement(st: System, a: nat, b: nat)
    requires RoomsOk(st.rooms, st.table, st.nextRoom, st.nextPlayer) && AgreementOk(st.sessions, st.rooms, st.table)
    requires Matchable(st.sessions, a, b)
    ensures
      var rid := st.nextRoom;
      var sessions := st.sessions[a := EnterRoom(st.sessions[a], rid)][b := EnterRoom(st.sessions[b], rid)];
      AgreementOk(sessions, st.rooms[rid := NewRoom(st.sessions, a, b)], st.table + {rid})
  {
    hide RoomOk;
    var rid := st.nextRoom;
    var room := NewRoom(st.sessions, a, b);
    var sessions := st.sessions[a := EnterRoom(st.sessions[a], rid)][b := EnterRoom(st.sessions[b], rid)];
    var rooms := st.rooms[rid := room];
    forall r, p | r in st.table + {rid} && r in rooms && p in rooms[r].conns ensures Agrees(sessions, r, rooms[r], p) {
      if r == rid {
        assert [Start][1..] == [];
        assert Bound(room.conns[p], [Start], p) == room.conns[p];
      } else {
        assert Agrees(st.sessions, r, st.rooms[r], p);
      }
    }
  }

  lemma MakeRoomInv(st: System, q: Q.Queue, a: nat, b: nat)
    requires Queued(st) && Sane(st) && Matchable(st.sessions, a, b)
    requires SessionsOk(st.sessions, st.queue.waiting, st.nextPlayer)
    requires Q.Settled(q) && Q.Ok(q) && q.waiting == st.queue.waiting - {a, b}
    ensures Inv(MakeRoom(st.(queue := q), a, b))
  {
    hide W.Inv, W.Flat, Q.Settled, SessionsOk, ConnsOk, TimersOk, RoomsOk, AgreementOk, EndsOk, ResultsOk, GoneOk,
      MatchTimersOk, Q.Ok, W.WellFormed, CancelMatchTimer;
    MatchedIds(st, a, b);
    var rid := st.nextRoom;
    CancelMatchTimerOk(st, st.wheel, st.matchTimer, a);
    var w1 := CancelMatchTimer(st.wheel, st.matchTimer, a);
    CancelMatchTimerOk(st, w1, st.matchTimer - {a}, b);
    var w2 := CancelMatchTimer(w1, st.matchTimer - {a}, b);
    var (sa, sb) := (EnterRoom(st.sessions[a], rid), EnterRoom(st.sessions[b], rid));
    MovedTimers(st.sessions, W.Flat(w2), st.dropTick, a, sa);
    MovedTimers(st.sessions[a := sa], W.Flat(w2), st.dropTick, b, sb);
    MovedConns(st.connOf, st.sessions, a, sa);
    MovedConns(st.connOf, st.sessions[a := sa], b, sb);
    MovedGone(st.sessions, st.gone, st.dropTick, st.nextPlayer, a, sa);
    MovedGone(st.sessions[a := sa], st.gone, st.dropTick, st.nextPlayer, b, sb);
    EnterSessions(st.sessions, st.queue.waiting, st.nextPlayer, a, b, rid);
    NewRoomOk(st, a, b);
    NewRoomEnds(st, NewRoom(st.sessions, a, b));
    NewRoomAgreement(st, a, b);
  }

  lemma MatchedIds(st: System, a: nat, b: nat)
    requires SessionsOk(st.sessions, st.queue.waiting, st.nextPlayer) && Matchable(st.sessions, a, b)
    requires RoomsOk(st.rooms, st.table, st.nextRoom, st.nextPlayer)
    ensures 1 <= a < st.nextPlayer && 1 <= b < st.nextPlayer && st.nextRoom != 0
  {
  }

  lemma MatchInv(st: System, c: Conn)
    requires Inv(st)
    ensures Sane(st) && Inv(OnMatch(st, c))
  {
    hide W.Inv, W.Flat, Q.Settled, SessionsOk, ConnsOk, TimersOk, RoomsOk, AgreementOk, EndsOk, ResultsOk, GoneOk,
      MatchTimersOk, Enqueue;
    InvSane(st);
    if SessionOf(st, c).Some? {
      var pid := SessionOf(st, c).value;
      if st.sessions[pid].place == InLobby && pid !in st.queue.waiting {
        MatchingInv(st, c, pid);
      }
    }
  }

  lemma WaitingFacts(st: System, w: nat)
    requires SessionsOk(st.sessions, st.queue.waiting, st.nextPlayer) && w in st.queue.waiting
    ensures w in st.sessions && st.sessions[w].place == Matching && st.sessions[w].roomId == 0
    ensures st.sessions[w].conn != None
  {
  }

  lemma MatchingInv(st: System, c: Conn, pid: nat)
    requires Inv(st) && Sane(st) && c in st.connOf && pid == st.connOf[c] && pid in st.sessions
    requires st.sessions[pid].place == InLobby && pid !in st.queue.waiting
    ensures Inv(TryMatch(Enqueue(st, pid)))
  {
    hide W.Inv, W.Flat, Q.Settled, SessionsOk, ConnsOk, TimersOk, RoomsOk, AgreementOk, EndsOk, ResultsOk, GoneOk,
      MatchTimersOk, Q.PopPair, Q.Push, Q.Ok, W.WellFormed;
    var st1 := Enqueue(st, pid);
    EnqueueQueued(st, pid);
    MappedConn(st, c);
    PushWaiting(st.queue, pid);
    Q.PushThenPop(st.queue, pid);
    var (q, pair) := Q.PopPair(st1.queue);
    assert SessionsOk(st1.sessions, st1.queue.waiting, st1.nextPlayer);
    if st.queue.waiting == {} {
      assert st.queue.waiting + {pid} == {pid};
      assert TryMatch(st1) == st1.(queue := q);
    } else {
      var w :| w in st.queue.waiting;
      WaitingFacts(st1, w);
      WaitingFacts(st1, pid);
      assert st1.queue.waiting - {w, pid} == {};
      MakeRoomInv(st1, q, w, pid);
    }
  }

  lemma PushWaiting(q: Q.Queue, pid: nat)
    requires pid !in q.waiting
    ensures Q.Push(q, pid).waiting == q.waiting + {pid}
  {
  }

  lemma MappedConn(st: System, c: Conn)
    requires Inv(st) && c in st.connOf
    ensures st.connOf[c] in st.sessions && st.sessions[st.connOf[c]].conn == Some(c)
  {
    hide W.Inv, W.Flat, Q.Settled, SessionsOk, TimersOk, RoomsOk, AgreementOk, EndsOk, ResultsOk, GoneOk, MatchTimersOk;
  }

  // ---------------------------------------------------------------- timers

  lemma TickInv(st: System)
    requires Inv(st) && st.wheel.firing == []
    ensures Sane(st) && Inv(TickWheel(st))
  {
    hide W.Inv, W.Flat, Q.Settled, SessionsOk, ConnsOk, TimersOk, RoomsOk, AgreementOk, EndsOk, ResultsOk, GoneOk,
      MatchTimersOk, W.StartTick, W.WellFormed;
    InvSane(st);
    W.StartTickRefines(st.wheel);
  }

  lemma SweepInv(st: System)
    requires Inv(st)
    ensures Sane(st) && Inv(OnSweep(st))
  {
    hide W.Inv, W.Flat, Q.Settled, SessionsOk, ConnsOk, TimersOk, RoomsOk, AgreementOk, EndsOk, ResultsOk, GoneOk,
      MatchTimersOk, W.Add, W.WellFormed;
    InvSane(st);
    W.AddRefines(st.wheel, SWEEP_MS, W.Sweep);
    W.IdsBelowNext(st.wheel);
    var t := W.Timer(st.wheel.now + W.EffectiveTicks(SWEEP_MS), W.Sweep);
    OtherTimer(st.sessions, W.Flat(st.wheel), st.dropTick, st.wheel.nextId, t);
    MoreTimers(st.matchTimer, W.Flat(st.wheel), st.wheel.nextId, t);
  }

  lemma TimeoutSessions(sessions: map<nat, Session>, waiting: set<nat>, nextPlayer: nat, pid: nat)
    requires SessionsOk(sessions, waiting, nextPlayer) && pid in waiting
    ensures pid in sessions && sessions[pid].place == Matching
    ensures SessionsOk(sessions[pid := sessions[pid].(place := InLobby)], waiting - {pid}, nextPlayer)
  {
  }

  lemma MatchTimeoutInv(st: System, pid: nat)
    requires Inv(st)
    ensures Sane(st) && Inv(OnMatchTimeout(st, pid))
  {
    hide W.Inv, W.Flat, Q.Settled, SessionsOk, ConnsOk, TimersOk, RoomsOk, AgreementOk, EndsOk, ResultsOk, GoneOk,
      MatchTimersOk, W.WellFormed;
    InvSane(st);
    NoRoomZero(st);
    ForgetMatchTimer(st.matchTimer, W.Flat(st.wheel), st.wheel.nextId, pid);
    if pid in st.queue.waiting {
      TimeoutSessions(st.sessions, st.queue.waiting, st.nextPlayer, pid);
      Q.RemoveSettled(st.queue, pid);
      var s := st.sessions[pid].(place := InLobby);
      MovedTimers(st.sessions, W.Flat(st.wheel), st.dropTick, pid, s);
      MovedConns(st.connOf, st.sessions, pid, s);
      MovedGone(st.sessions, st.gone, st.dropTick, st.nextPlayer, pid, s);
      SessionAgreement(st.sessions, st.rooms, st.table, pid, s);
    }
  }

  lemma ForgetMatchTimer(matchTimer: map<nat, nat>, timers: map<nat, W.Timer>, nextId: nat, pid: nat)
    requires MatchTimersOk(matchTimer, timers, nextId)
    ensures MatchTimersOk(matchTimer - {pid}, timers, nextId)
  {
  }

  // A session expires.

  /** The state in which an expiry callback starts: its timer is gone, so the timer part
      of the invariant is broken for that one player. */
  ghost predicate Expiring(st: System, pid: nat) {
    && pid in st.sessions && st.sessions[pid].conn == None
    && pid in st.dropTick && st.wheel.now == st.dropTick[pid] + KEEP_TICKS
    && W.Inv(st.wheel) && Q.Settled(st.queue)
    && SessionsOk(st.sessions, st.queue.waiting, st.nextPlayer)
    && ConnsOk(st.connOf, st.sessions)
    && TimersOk(st.sessions - {pid}, W.Flat(st.wheel), st.dropTick)
    && MatchTimersOk(st.matchTimer, W.Flat(st.wheel), st.wheel.nextId)
    && RoomsOk(st.rooms, st.table, st.nextRoom, st.nextPlayer)
    && AgreementOk(st.sessions, st.rooms, st.table)
    && EndsOk(st.rooms, st.table, st.inbox)
    && ResultsOk(st.rooms, st.table, st.results)
    && GoneOk(st.sessions, st.gone, st.dropTick, st.nextPlayer)
  }

  lemma ExpireSessions(st: System, pid: nat)
    requires SessionsOk(st.sessions, st.queue.waiting, st.nextPlayer) && ConnsOk(st.connOf, st.sessions)
    requires GoneOk(st.sessions, st.gone, st.dropTick, st.nextPlayer)
    requires pid in st.sessions && st.sessions[pid].conn == None
    requires pid in st.dropTick && st.wheel.now == st.dropTick[pid] + KEEP_TICKS
    ensures SessionsOk(st.sessions - {pid}, st.queue.waiting, st.nextPlayer)
    ensures ConnsOk(st.connOf, st.sessions - {pid})
    ensures GoneOk(st.sessions - {pid}, st.gone[pid := st.wheel.now], st.dropTick, st.nextPlayer)
  {
  }

  lemma SurvivorIsMember(st: System, pid: nat)
    requires AgreementOk(st.sessions, st.rooms, st.table) && RoomsOk(st.rooms, st.table, st.nextRoom, st.nextPlayer)
    requires pid in st.sessions && st.sessions[pid].roomId != 0
    ensures st.sessions[pid].roomId in st.table && st.sessions[pid].roomId in st.rooms
    ensures MemberOrNone(st.rooms[st.sessions[pid].roomId], Survivor(st.sessions, pid))
  {
    hide Agrees, OutOk, PendingOk;
    var w := Survivor(st.sessions, pid);
    var room := st.rooms[st.sessions[pid].roomId];
    assert RoomOk(room);
    if w != 0 {
      assert w in room.conns.Keys;
    }
  }

  /** The room of the session that goes, if any, is posted a task that moves no connection. */
  lemma ExpireAgreement(st: System, pid: nat, t: RoomTask)
    requires AgreementOk(st.sessions, st.rooms, st.table) && 0 !in st.table
    requires pid in st.sessions && st.sessions[pid].conn == None
    requires forall p, cur :: Effect(t, p, cur) == cur
    ensures AgreementOk(st.sessions - {pid}, Post(st.rooms, st.table, st.sessions[pid].roomId, t), st.table)
  {
    var rid := st.sessions[pid].roomId;
    var rooms := Post(st.rooms, st.table, rid, t);
    forall r, p | r in st.table && r in rooms && p in rooms[r].conns
      ensures Agrees(st.sessions - {pid}, r, rooms[r], p)
    {
      assert Agrees(st.sessions, r, st.rooms[r], p);
      PostBinding(st.rooms, st.table, rid, t, r, p);
    }
  }

  lemma ExpireInv(st: System, pid: nat)
    requires Expiring(st, pid) && Sane(st)
    ensures Inv(ExpireSession(st, pid))
  {
    hide W.Inv, W.Flat, Q.Settled, SessionsOk, ConnsOk, TimersOk, RoomsOk, AgreementOk, EndsOk, ResultsOk, GoneOk,
      MatchTimersOk, W.WellFormed, Q.Ok, Survivor;
    ExpireSessions(st, pid);
    RoomZero(st.rooms, st.table, st.nextRoom, st.nextPlayer);
    PlaceFacts(st.sessions, st.queue.waiting, st.nextPlayer, pid);
    var t := ForceEnd(Survivor(st.sessions, pid));
    ExpireAgreement(st, pid, t);
    if st.sessions[pid].place == InRoom {
      SurvivorIsMember(st, pid);
      PostRooms(st.rooms, st.table, st.nextRoom, st.nextPlayer, st.sessions[pid].roomId, t);
      PostEnds(st.rooms, st.table, st.inbox, st.results, st.sessions[pid].roomId, t);
    }
  }

  lemma RoomZero(rooms: map<nat, Room>, table: set<nat>, nextRoom: nat, nextPlayer: nat)
    requires RoomsOk(rooms, table, nextRoom, nextPlayer)
    ensures 0 !in table
  {
    hide RoomOk;
  }

  lemma PlaceFacts(sessions: map<nat, Session>, waiting: set<nat>, nextPlayer: nat, pid: nat)
    requires SessionsOk(sessions, waiting, nextPlayer) && pid in sessions
    ensures sessions[pid].place == InRoom <==> sessions[pid].roomId != 0
  {
  }

  /** An expiry timer that fires belongs to a session that is there and disconnected: the
      guard against a session that came back never triggers. */
  lemma FiredExpiry(sessions: map<nat, Session>, timers: map<nat, W.Timer>, dropTick: map<nat, nat>, id: nat)
    requires TimersOk(sessions, timers, dropTick) && id in timers && timers[id].cb.ExpireSession?
    ensures
      var pid := timers[id].cb.pid;
      && pid in sessions && sessions[pid].conn == None && pid in dropTick
      && timers[id].expiry == dropTick[pid] + KEEP_TICKS
      && TimersOk(sessions - {pid}, timers - {id}, dropTick)
  {
  }

  lemma CancelledFire(st: System)
    requires Inv(st) && st.wheel.firing != [] && Sane(st)
    requires st.wheel.firing[0] in W.Flat(st.wheel) ==> !W.Flat(st.wheel)[st.wheel.firing[0]].cb.ExpireSession?
    ensures Inv(st.(wheel := W.FireNext(st.wheel)))
  {
    hide W.Inv, W.Flat, Q.Settled, SessionsOk, ConnsOk, TimersOk, RoomsOk, AgreementOk, EndsOk, ResultsOk, GoneOk,
      MatchTimersOk, W.WellFormed, Q.Ok;
    var id := st.wheel.firing[0];
    W.FireNextRefines(st.wheel);
    OtherTimerGone(st.sessions, W.Flat(st.wheel), st.dropTick, id);
    FewerTimers(st.matchTimer, st.matchTimer, W.Flat(st.wheel), id, st.wheel.nextId);
  }

  lemma FireExpiry(st: System)
    requires Inv(st) && st.wheel.firing != [] && Sane(st)
    requires st.wheel.firing[0] in W.Flat(st.wheel) && W.Flat(st.wheel)[st.wheel.firing[0]].cb.ExpireSession?
    ensures Expiring(st.(wheel := W.FireNext(st.wheel)), W.Flat(st.wheel)[st.wheel.firing[0]].cb.pid)
  {
    hide W.Inv, W.Flat, Q.Settled, SessionsOk, ConnsOk, TimersOk, RoomsOk, AgreementOk, EndsOk, ResultsOk, GoneOk,
      MatchTimersOk, W.WellFormed, Q.Ok;
    var id := st.wheel.firing[0];
    W.FireNextRefines(st.wheel);
    W.NextIsLive(st.wheel);
    FiredExpiry(st.sessions, W.Flat(st.wheel), st.dropTick, id);
    FewerTimers(st.matchTimer, st.matchTimer, W.Flat(st.wheel), id, st.wheel.nextId);
  }

  lemma FireInv(st: System)
    requires Inv(st) && st.wheel.firing != []
    ensures Sane(st) && Inv(FireTimer(st))
  {
    hide Inv, Expiring, W.FireNext, W.Flat, W.WellFormed, Q.Ok, OnSweep, OnMatchTimeout, ExpireSession;
    InvSane(st);
    InvWheel(st);
    W.NextIsLive(st.wheel);
    var id := st.wheel.firing[0];
    var n := st.wheel.nodes[id];
    var st1 := st.(wheel := W.FireNext(st.wheel));
    if n.canceled {
      CancelledFire(st);
    } else {
      match n.cb {
        case MatchTimeout(pid) =>
          CancelledFire(st);
          MatchTimeoutInv(st1, pid);
        case ExpireSession(pid) =>
          FireExpiry(st);
          ExpireInv(st1, pid);
        case Sweep =>
          CancelledFire(st);
          SweepInv(st1);
      }
    }
  }

  lemma InvWheel(st: System)
    requires Inv(st)
    ensures W.Inv(st.wheel)
  {
  }

  // ---------------------------------------------------------------- rooms

  /** A room changes without changing where its messages will end up going. */
  ghost predicate SameBindings(room: Room, room': Room) {
    && room'.conns.Keys == room.conns.Keys
    && room'.a == room.a && room'.b == room.b
    && (forall p | p in room.conns :: Binding(room', p) == Binding(room, p))
  }

  lemma RoomAgreement(sessions: map<nat, Session>, rooms: map<nat, Room>, table: set<nat>, rid: nat, room': Room)
    requires AgreementOk(sessions, rooms, table) && rid in rooms && SameBindings(rooms[rid], room')
    ensures AgreementOk(sessions, rooms[rid := room'], table)
  {
    hide Binding;
    var rooms' := rooms[rid := room'];
    forall r, p | r in table && r in rooms' && p in rooms'[r].conns ensures Agrees(sessions, r, rooms'[r], p) {
      assert p in rooms[r].conns.Keys;
      assert Agrees(sessions, r, rooms[r], p);
    }
  }

  lemma RoomSet(rooms: map<nat, Room>, table: set<nat>, nextRoom: nat, nextPlayer: nat, rid: nat, room': Room)
    requires RoomsOk(rooms, table, nextRoom, nextPlayer) && rid in rooms && RoomOk(room')
    requires room'.a == rooms[rid].a && room'.b == rooms[rid].b
    ensures RoomsOk(rooms[rid := room'], table, nextRoom, nextPlayer)
  {
    hide RoomOk;
  }

  lemma RoomStillRuns(rooms: map<nat, Room>, table: set<nat>, inbox: seq<RoomEnd>, results: seq<Result>, rid: nat,
                      room': Room)
    requires EndsOk(rooms, table, inbox) && ResultsOk(rooms, table, results) && rid in rooms
    requires room'.ended == rooms[rid].ended && SameBindings(rooms[rid], room')
    ensures EndsOk(rooms[rid := room'], table, inbox) && ResultsOk(rooms[rid := room'], table, results)
  {
    hide Binding;
  }

  /** The room ends: it tells the lobby once, and it could not have done so before. */
  lemma RoomEnds(rooms: map<nat, Room>, table: set<nat>, inbox: seq<RoomEnd>, results: seq<Result>, rid: nat,
                 room': Room, w: nat)
    requires EndsOk(rooms, table, inbox) && ResultsOk(rooms, table, results) && rid in rooms
    requires !rooms[rid].ended && room'.ended && SameBindings(rooms[rid], room') && MemberOrNone(room', w)
    ensures EndsOk(rooms[rid := room'], table, inbox + [RoomEnd(rid, w)])
    ensures ResultsOk(rooms[rid := room'], table, results)
  {
    hide Binding;
    var rooms' := rooms[rid := room'];
    var inbox' := inbox + [RoomEnd(rid, w)];
    assert inbox'[|inbox|].rid == rid;
    forall r | r in rooms' && rooms'[r].ended && r in table ensures Announced(inbox', r) {
      if r != rid {
        var i :| 0 <= i < |inbox| && inbox[i].rid == r;
        assert inbox'[i].rid == r;
      }
    }
  }

  /** Running the next task, before any ending. */
  function AfterTask(room: Room): Room
    requires room.pending != []
  {
    var r := room.(pending := room.pending[1..], conns := Bind(room.pending[0], room.conns));
    match room.pending[0]
    case Start => r.(ticking := true, out := room.out + [EnterMsg])
    case StopTicker => r.(ticking := false)
    case _ => r
  }

  function AfterEnd(room: Room, winner: nat): Room {
    room.(ended := true, out := room.out + [EndMsg(winner)], pending := room.pending + [StopTicker])
  }

  lemma AfterTaskOk(room: Room)
    requires RoomOk(room) && room.pending != []
    ensures RoomOk(AfterTask(room)) && SameBindings(room, AfterTask(room))
    ensures AfterTask(room).ended == room.ended
    ensures room.pending[0].ForceEnd? ==> MemberOrNone(room, room.pending[0].winner)
  {
    var r := AfterTask(room);
    assert r.conns.Keys == room.conns.Keys;
    assert forall i | 0 <= i < |r.pending| :: r.pending[i] == room.pending[i + 1];
    forall p | p in room.conns ensures Binding(r, p) == Binding(room, p) {
    }
  }

  lemma AfterEndOk(room: Room, w: nat)
    requires RoomOk(room) && !room.ended && MemberOrNone(room, w)
    requires room.pending != [] ==> room.pending[0] != Start
    ensures RoomOk(AfterEnd(room, w)) && SameBindings(room, AfterEnd(room, w))
  {
    var r := AfterEnd(room, w);
    forall i | 0 <= i < |r.pending| ensures r.pending[i] == if i < |room.pending| then room.pending[i] else StopTicker {
    }
    forall p | p in room.conns ensures Binding(r, p) == Binding(room, p) {
      BoundAppend(room.conns[p], room.pending, StopTicker, p);
    }
  }

  lemma SameBindingsTrans(x: Room, y: Room, z: Room)
    requires SameBindings(x, y) && SameBindings(y, z)
    ensures SameBindings(x, z)
  {
    hide Binding;
    assert forall p | p in x.conns.Keys :: p in y.conns.Keys;
  }

  lemma TaskIsAfterTask(st: System, rid: nat)
    requires Sane(st) && rid in st.rooms && st.rooms[rid].pending != []
    ensures
      var room := st.rooms[rid];
      var t := room.pending[0];
      RunRoomTask(st, rid) ==
        if t.ForceEnd? && !room.ended then
          st.(rooms := st.rooms[rid := AfterEnd(AfterTask(room), t.winner)],
            inbox := st.inbox + [RoomEnd(rid, t.winner)])
        else SetRoom(st, rid, AfterTask(room))
  {
    var room := st.rooms[rid];
    var t := room.pending[0];
    if !t.Rebind? && !t.Drop? {
      assert Bind(t, room.conns) == room.conns;
    }
  }

  lemma RoomFacts(rooms: map<nat, Room>, table: set<nat>, nextRoom: nat, nextPlayer: nat, rid: nat)
    requires RoomsOk(rooms, table, nextRoom, nextPlayer) && rid in rooms
    ensures RoomOk(rooms[rid])
  {
    hide RoomOk;
  }

  lemma NoStartLeft(room: Room)
    requires RoomOk(room) && room.pending != []
    ensures AfterTask(room).pending != [] ==> AfterTask(room).pending[0] != Start
  {
  }

  lemma RoomStepInv(st: System, rid: nat)
    requires Inv(st) && rid in st.rooms && st.rooms[rid].pending != []
    ensures Sane(st) && Inv(RunRoomTask(st, rid))
  {
    hide W.Inv, W.Flat, Q.Settled, SessionsOk, ConnsOk, TimersOk, RoomsOk, AgreementOk, EndsOk, ResultsOk, GoneOk,
      MatchTimersOk, RoomOk, SameBindings, W.WellFormed, Q.Ok, RunRoomTask, AfterTask, AfterEnd;
    InvSane(st);
    TaskIsAfterTask(st, rid);
    var room := st.rooms[rid];
    var t := room.pending[0];
    RoomFacts(st.rooms, st.table, st.nextRoom, st.nextPlayer, rid);
    AfterTaskOk(room);
    var r1 := AfterTask(room);
    SameBindingsMembers(room, r1);
    if t.ForceEnd? && !room.ended {
      NoStartLeft(room);
      AfterEndOk(r1, t.winner);
      EndRoomInv(st, rid, r1, t.winner);
    } else {
      RoomSet(st.rooms, st.table, st.nextRoom, st.nextPlayer, rid, r1);
      RoomAgreement(st.sessions, st.rooms, st.table, rid, r1);
      RoomStillRuns(st.rooms, st.table, st.inbox, st.results, rid, r1);
    }
  }

  lemma SameBindingsMembers(x: Room, y: Room)
    requires SameBindings(x, y)
    ensures x.a == y.a && x.b == y.b
  {
  }

  lemma EndRoomInv(st: System, rid: nat, r1: Room, w: nat)
    requires Inv(st) && rid in st.rooms && !st.rooms[rid].ended
    requires RoomOk(r1) && SameBindings(st.rooms[rid], r1) && MemberOrNone(r1, w)
    requires RoomOk(AfterEnd(r1, w)) && SameBindings(r1, AfterEnd(r1, w))
    ensures Inv(st.(rooms := st.rooms[rid := AfterEnd(r1, w)], inbox := st.inbox + [RoomEnd(rid, w)]))
  {
    hide W.Inv, W.Flat, Q.Settled, SessionsOk, ConnsOk, TimersOk, RoomsOk, AgreementOk, EndsOk, ResultsOk, GoneOk,
      MatchTimersOk, RoomOk, SameBindings;
    var r2 := AfterEnd(r1, w);
    SameBindingsTrans(st.rooms[rid], r1, r2);
    SameBindingsMembers(st.rooms[rid], r2);
    RoomSet(st.rooms, st.table, st.nextRoom, st.nextPlayer, rid, r2);
    RoomAgreement(st.sessions, st.rooms, st.table, rid, r2);
    RoomEnds(st.rooms, st.table, st.inbox, st.results, rid, r2, w);
  }

  function AfterDelta(room: Room, delta: bool): Room {
    room.(out := room.out + if delta then [SnapMsg] else [])
  }

  lemma AfterDeltaOk(room: Room, delta: bool)
    requires RoomOk(room) && !room.ended
    ensures RoomOk(AfterDelta(room, delta)) && SameBindings(room, AfterDelta(room, delta))
  {
    forall p | p in room.conns ensures Binding(AfterDelta(room, delta), p) == Binding(room, p) {
    }
  }

  lemma TickIsAfterDelta(st: System, rid: nat, delta: bool, w: nat)
    requires Sane(st) && rid in st.rooms && !st.rooms[rid].ended
    ensures
      var r1 := AfterDelta(st.rooms[rid], delta);
      TickRoom(st, rid, delta, w) ==
        if w != 0 then st.(rooms := st.rooms[rid := AfterEnd(r1, w)], inbox := st.inbox + [RoomEnd(rid, w)])
        else SetRoom(st, rid, r1)
  {
  }

  lemma TickingIsStarted(room: Room)
    requires RoomOk(room) && room.ticking
    ensures room.pending != [] ==> room.pending[0] != Start
  {
  }

  lemma RoomTickInv(st: System, rid: nat, delta: bool, w: nat)
    requires Inv(st) && Enabled(st, RoomTick(rid, delta, w))
    ensures Sane(st) && Inv(TickRoom(st, rid, delta, w))
  {
    hide W.Inv, W.Flat, Q.Settled, SessionsOk, ConnsOk, TimersOk, RoomsOk, AgreementOk, EndsOk, ResultsOk, GoneOk,
      MatchTimersOk, RoomOk, SameBindings, W.WellFormed, Q.Ok;
    InvSane(st);
    var room := st.rooms[rid];
    if !room.ended {
      TickIsAfterDelta(st, rid, delta, w);
      hide TickRoom;
      var r1 := AfterDelta(room, delta);
      RoomFacts(st.rooms, st.table, st.nextRoom, st.nextPlayer, rid);
      TickingIsStarted(room);
      AfterDeltaOk(room, delta);
      if w != 0 {
        AfterEndOk(r1, w);
        EndRoomInv(st, rid, r1, w);
      } else {
        RoomSet(st.rooms, st.table, st.nextRoom, st.nextPlayer, rid, r1);
        RoomAgreement(st.sessions, st.rooms, st.table, rid, r1);
        RoomStillRuns(st.rooms, st.table, st.inbox, st.results, rid, r1);
      }
    }
  }

  // ---------------------------------------------------------------- the end of a battle

  lemma BackSessions(st: System, rid: nat)
    requires SessionsOk(st.sessions, st.queue.waiting, st.nextPlayer) && ConnsOk(st.connOf, st.sessions)
    requires GoneOk(st.sessions, st.gone, st.dropTick, st.nextPlayer) && rid != 0
    ensures SessionsOk(BackToLobby(st.sessions, rid), st.queue.waiting, st.nextPlayer)
    ensures ConnsOk(st.connOf, BackToLobby(st.sessions, rid))
    ensures GoneOk(BackToLobby(st.sessions, rid), st.gone, st.dropTick, st.nextPlayer)
  {
  }

  lemma BackTimers(sessions: map<nat, Session>, timers: map<nat, W.Timer>, dropTick: map<nat, nat>, rid: nat)
    requires TimersOk(sessions, timers, dropTick)
    ensures TimersOk(BackToLobby(sessions, rid), timers, dropTick)
  {
  }

  lemma BackAgreement(sessions: map<nat, Session>, rooms: map<nat, Room>, table: set<nat>, rid: nat)
    requires AgreementOk(sessions, rooms, table)
    ensures AgreementOk(BackToLobby(sessions, rid), rooms, table - {rid})
  {
    hide Binding;
    forall r, p | r in table - {rid} && r in rooms && p in rooms[r].conns
      ensures Agrees(BackToLobby(sessions, rid), r, rooms[r], p)
    {
      assert Agrees(sessions, r, rooms[r], p);
    }
  }

  lemma BackRooms(rooms: map<nat, Room>, table: set<nat>, nextRoom: nat, nextPlayer: nat, inbox: seq<RoomEnd>)
    requires RoomsOk(rooms, table, nextRoom, nextPlayer) && EndsOk(rooms, table, inbox) && inbox != []
    ensures inbox[0].rid != 0 && inbox[0].rid in table
    ensures RoomsOk(rooms, table - {inbox[0].rid}, nextRoom, nextPlayer)
    ensures EndsOk(rooms, table - {inbox[0].rid}, inbox[1..])
  {
    hide RoomOk;
    var rid := inbox[0].rid;
    var rest := inbox[1..];
    assert forall i | 0 <= i < |rest| :: rest[i] == inbox[i + 1];
    forall r | r in rooms && rooms[r].ended && r in table - {rid} ensures Announced(rest, r) {
      var i :| 0 <= i < |inbox| && inbox[i].rid == r;
      assert rest[i - 1].rid == r;
    }
  }

  lemma OutcomeOk(st: System, rid: nat, winner: nat)
    requires RoomsOk(st.rooms, st.table, st.nextRoom, st.nextPlayer) && AgreementOk(st.sessions, st.rooms, st.table)
    requires ResultsOk(st.rooms, st.table, st.results) && rid in st.table
    ensures ResultsOk(st.rooms, st.table - {rid}, st.results + Outcome(st.sessions, rid, winner))
  {
    hide Agrees, OutOk, PendingOk;
    var o := Outcome(st.sessions, rid, winner);
    var room := st.rooms[rid];
    assert RoomOk(room);
    hide Outcome;
    if o != [] {
      assert winner in room.conns.Keys && o[0].loser in room.conns.Keys;
      assert {winner, o[0].loser} == room.conns.Keys;
    }
    var all := st.results + o;
    forall i | 0 <= i < |all| ensures
      && all[i].rid in st.rooms && all[i].rid !in st.table - {rid}
      && all[i].winner != all[i].loser
      && {all[i].winner, all[i].loser} == st.rooms[all[i].rid].conns.Keys
    {
      if i < |st.results| {
        assert all[i] == st.results[i];
      } else {
        assert all[i] == o[0];
      }
    }
  }

  lemma LobbyTaskInv(st: System)
    requires Inv(st) && st.inbox != []
    ensures Sane(st) && Inv(RunLobbyTask(st))
  {
    hide W.Inv, W.Flat, Q.Settled, SessionsOk, ConnsOk, TimersOk, RoomsOk, AgreementOk, EndsOk, ResultsOk, GoneOk,
      MatchTimersOk, W.WellFormed, Q.Ok, Outcome, BackToLobby;
    InvSane(st);
    var e := st.inbox[0];
    BackRooms(st.rooms, st.table, st.nextRoom, st.nextPlayer, st.inbox);
    BackSessions(st, e.rid);
    BackTimers(st.sessions, W.Flat(st.wheel), st.dropTick, e.rid);
    BackAgreement(st.sessions, st.rooms, st.table, e.rid);
    OutcomeOk(st, e.rid, e.winner);
  }

  // ---------------------------------------------------------------- runs

  lemma StepInv(st: System, s: Step)
    requires Inv(st) && Enabled(st, s)
    ensures Sane(st) && Inv(Apply(st, s))
  {
    InvSane(st);
    hide Inv, Sane, OnLogin, OnReconnect, OnMatch, OnInput, OnDisconnect, TickWheel, FireTimer, RunLobbyTask,
      RunRoomTask, TickRoom;
    match s {
      case Login(c, account, token) => LoginInv(st, c, account, token);
      case Reconnect(c, pid, token) => ReconnectInv(st, c, pid, token);
      case MatchReq(c) => MatchInv(st, c);
      case InputReq(c, input) => InputInv(st, c, input);
      case Disconnect(c) => DisconnectInv(st, c);
      case WheelTick => TickInv(st);
      case WheelFire => FireInv(st);
      case LobbyTask => LobbyTaskInv(st);
      case RoomStep(rid) => RoomStepInv(st, rid);
      case RoomTick(rid, delta, w) => RoomTickInv(st, rid, delta, w);
    }
  }

  lemma {:induction false} RunInv(st: System, steps: seq<Step>)
    requires Sane(st) && Inv(st) && ValidRun(st, steps)
    ensures Inv(After(st, steps))
    decreases |steps|
  {
    hide Inv, Sane, Apply;
    if steps != [] {
      StepInv(st, steps[0]);
      RunInv(Apply(st, steps[0]), steps[1..]);
    }
  }
}
