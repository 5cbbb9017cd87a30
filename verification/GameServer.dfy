/** The lobby's handlers as they are programmed, on the wheel and the queue they use. */
module GameServer {
  import opened Prelude
  import opened Lobby
  import W = WheelModel
  import Q = QueueModel
  import M = SimModel
  import opened LobbyInv
  import opened LobbyTheorems
  import TimerWheel
  import MatchQueue

  /** At most one other session is in the room of `pid`. */
  ghost predicate OneOpponent(sessions: map<nat, Session>, pid: nat) {
    && 0 !in sessions
    && forall o, o' | Opponent(sessions, pid, o) && Opponent(sessions, pid, o') :: o == o'
  }

  /** If the winner is in the room, at most one other session is. */
  ghost predicate OneLoser(sessions: map<nat, Session>, rid: nat, winner: nat) {
    Plays(sessions, winner, rid) ==>
      forall l, l' | l != winner && l' != winner && Plays(sessions, l, rid) && Plays(sessions, l', rid) :: l == l'
  }

  /** Whoever is in a room is one of its two players. */
  lemma RoomMembers(st: System, rid: nat)
    requires Inv(st) && rid != 0
    ensures forall p | Plays(st.sessions, p, rid) :: rid in st.rooms && (p == st.rooms[rid].a || p == st.rooms[rid].b)
    ensures 0 !in st.sessions
  {
    hide W.Inv, Q.Settled, TimersOk, MatchTimersOk, EndsOk, ResultsOk, GoneOk, ConnsOk, Agrees;
    forall p | Plays(st.sessions, p, rid)
      ensures rid in st.rooms && (p == st.rooms[rid].a || p == st.rooms[rid].b)
    {
      assert p in st.rooms[rid].conns;
      assert RoomOk(st.rooms[rid]);
    }
  }

  /** In every reachable state both walks over the sessions have one possible answer: an
      expiring player has at most one opponent, an announced winner at most one loser. */
  lemma RoomsAreDuels(st: System)
    requires Reachable(st)
    ensures forall pid | pid in st.sessions && st.sessions[pid].place == InRoom :: OneOpponent(st.sessions, pid)
    ensures forall i | 0 <= i < |st.inbox| :: OneLoser(st.sessions, st.inbox[i].rid, st.inbox[i].winner)
  {
    hide Reachable;
    ReachableInv(st);
    forall pid | pid in st.sessions && st.sessions[pid].place == InRoom ensures OneOpponent(st.sessions, pid) {
      InRoomMeans(st, pid);
      hide Inv;
      RoomMembers(st, st.sessions[pid].roomId);
      assert Plays(st.sessions, pid, st.sessions[pid].roomId);
      assert forall o | Opponent(st.sessions, pid, o) :: Plays(st.sessions, o, st.sessions[pid].roomId);
    }
    forall i | 0 <= i < |st.inbox| ensures OneLoser(st.sessions, st.inbox[i].rid, st.inbox[i].winner) {
      InboxMeans(st, i);
      hide Inv;
      RoomMembers(st, st.inbox[i].rid);
    }
  }

  lemma InRoomMeans(st: System, pid: nat)
    requires Inv(st) && pid in st.sessions && st.sessions[pid].place == InRoom
    ensures st.sessions[pid].roomId != 0
  {
    hide W.Inv, Q.Settled, TimersOk, MatchTimersOk, EndsOk, ResultsOk, GoneOk, ConnsOk, AgreementOk, RoomsOk;
  }

  lemma InboxMeans(st: System, i: nat)
    requires Inv(st) && i < |st.inbox|
    ensures st.inbox[i].rid != 0
  {
    hide W.Inv, Q.Settled, TimersOk, MatchTimersOk, ResultsOk, GoneOk, ConnsOk, AgreementOk, SessionsOk, RoomOk;
  }

  /** The expiry of this session ends a battle. */
  predicate Forfeits(sessions: map<nat, Session>, pid: nat) {
    pid in sessions && sessions[pid].conn == None && sessions[pid].place == InRoom
  }

  /** What may be recorded when a room ends: at most one result, of the winner against
      another player of the room, with their accounts, neither of them empty. */
  ghost predicate Recordable(sessions: map<nat, Session>, rid: nat, winner: nat, recorded: seq<Result>) {
    && |recorded| <= 1
    && (forall i | 0 <= i < |recorded| ::
          && Plays(sessions, winner, rid) && Plays(sessions, recorded[i].loser, rid) && recorded[i].loser != winner
          && recorded[i] == Result(rid, winner, recorded[i].loser, sessions[winner].account,
            sessions[recorded[i].loser].account)
          && recorded[i].winnerAccount != "" && recorded[i].loserAccount != "")
  }

  /** What the lobby answers to a login or a reconnect. */
  datatype Answer = Granted(pid: nat, token: nat) | Refused

  class GameServer {
    var sessions: map<nat, Session>
    var connOf: map<Conn, nat>
    var table: set<nat>
    var rooms: map<nat, Room>
    var matchTimer: map<nat, nat>
    var nextPlayer: nat
    var nextRoom: nat
    const queue: MatchQueue.MatchQueue
    const wheel: TimerWheel.TimerWheel
    // What was sent to be recorded, and the history the theorems speak of.
    ghost var results: seq<Result>
    ghost var inbox: seq<RoomEnd>
    ghost var dropTick: map<nat, nat>
    ghost var gone: map<nat, nat>

    ghost predicate Valid()
      reads this, queue, wheel, wheel.l0, wheel.l1
    {
      wheel.Valid() && Q.Ok(queue.State())
    }

    ghost function State(): System
      reads this, queue, wheel, wheel.l0, wheel.l1
    {
      System(sessions, connOf, table, rooms, queue.State(), matchTimer, wheel.State(), nextPlayer, nextRoom,
             inbox, results, dropTick, gone)
    }

    constructor ()
      ensures Valid() && State() == Initial()
      ensures fresh(queue) && fresh(wheel) && fresh(wheel.l0) && fresh(wheel.l1)
    {
      sessions, connOf, table, rooms, matchTimer := map[], map[], {}, map[], map[];
      nextPlayer, nextRoom, results := 1, 1, [];
      inbox, dropTick, gone := [], map[], map[];
      queue := new MatchQueue.MatchQueue();
      wheel := new TimerWheel.TimerWheel();
      new;
      hide W.WellFormed, W.Place, W.Register;
      var _ := wheel.Add(SWEEP_MS, W.Sweep);
    }

    method OnLogin(c: Conn, account: string, token: nat) returns (answer: Answer)
      requires Valid()
      modifies this
      ensures Valid() && State() == Lobby.OnLogin(old(State()), c, account, token)
      ensures answer == Granted(old(nextPlayer), token)
    {
      var pid := nextPlayer;
      nextPlayer := nextPlayer + 1;
      sessions := sessions[pid := Session(token, account, Some(c), 0, InLobby, 0)];
      connOf := connOf[c := pid];
      answer := Granted(pid, token);
    }

    method PostTask(rid: nat, t: RoomTask)
      modifies this`rooms
      ensures rooms == Post(old(rooms), table, rid, t)
    {
      if rid in table && rid in rooms {
        rooms := rooms[rid := rooms[rid].(pending := rooms[rid].pending + [t])];
      }
    }

    /** Refused unless the session exists, the token matches and it has no connection; a
        refused connection is told so and shut down. */
    method OnReconnect(c: Conn, pid: nat, token: nat) returns (answer: Answer, shut: bool)
      requires Valid()
      modifies this, wheel
      ensures Valid() && State() == Lobby.OnReconnect(old(State()), c, pid, token)
      ensures !shut <==> pid in old(sessions) && old(sessions)[pid].token == token && old(sessions)[pid].conn == None
      ensures answer == if shut then Refused else Granted(pid, token)
      ensures shut ==> State() == old(State())
      ensures !shut ==> pid in sessions && sessions[pid].conn == Some(c) && connOf == old(connOf)[c := pid]
    {
      hide W.WellFormed, W.Cancel, Post;
      if pid !in sessions || sessions[pid].token != token || sessions[pid].conn != None {
        return Refused, true;
      }
      var s := sessions[pid];
      if s.expireTimer != 0 {
        wheel.Cancel(s.expireTimer);
        s := s.(expireTimer := 0);
      }
      s := s.(conn := Some(c));
      sessions := sessions[pid := s];
      connOf := connOf[c := pid];
      if s.place == InRoom {
        PostTask(s.roomId, Rebind(pid, c));
      }
      return Granted(pid, token), false;
    }

    method SessionOf(c: Conn) returns (r: Option<nat>)
      requires Valid()
      ensures r == Lobby.SessionOf(State(), c)
    {
      if c !in connOf {
        return None;
      }
      return if connOf[c] in sessions then Some(connOf[c]) else None;
    }

    method OnMatch(c: Conn)
      requires Valid()
      modifies this, queue, wheel, wheel.l0, wheel.l1
      ensures Valid() && State() == Lobby.OnMatch(old(State()), c)
    {
      hide W.WellFormed, W.Add, W.Cancel, Lobby.TryMatch;
      var found := SessionOf(c);
      if found.None? || sessions[found.value].place != InLobby {
        return;
      }
      var pid := found.value;
      var pushed := queue.Push(pid);
      if !pushed {
        return;
      }
      sessions := sessions[pid := sessions[pid].(place := Matching)];
      var timer := wheel.Add(MATCH_TIMEOUT_MS, W.MatchTimeout(pid));
      matchTimer := matchTimer[pid := timer];
      assert State() == Enqueue(old(State()), pid);
      TryMatch();
    }

    /** Cancels and forgets the match timers of these players. */
    method ForgetMatchTimer(pid: nat)
      requires Valid()
      modifies this`matchTimer, wheel`nodes, wheel`alive
      ensures Valid() && matchTimer == old(matchTimer) - {pid}
      ensures wheel.State() == CancelMatchTimer(old(wheel.State()), old(matchTimer), pid)
    {
      hide W.WellFormed, W.Cancel;
      if pid in matchTimer {
        wheel.Cancel(matchTimer[pid]);
        matchTimer := matchTimer - {pid};
      }
    }

    /** Both players' match timers. */
    method ForgetMatchTimers(a: nat, b: nat)
      requires Valid()
      modifies this`matchTimer, wheel`nodes, wheel`alive
      ensures Valid() && matchTimer == old(matchTimer) - {a} - {b}
      ensures
        var first := CancelMatchTimer(old(wheel.State()), old(matchTimer), a);
        wheel.State() == CancelMatchTimer(first, old(matchTimer) - {a}, b)
    {
      hide W.WellFormed, CancelMatchTimer;
      ForgetMatchTimer(a);
      ForgetMatchTimer(b);
    }

    method TryMatch()
      requires Valid()
      modifies this, queue, wheel
      ensures Valid() && State() == Lobby.TryMatch(old(State()))
    {
      hide W.WellFormed, CancelMatchTimer, Q.PopPair;
      var pair := queue.PopPair();
      if pair.None? {
        return;
      }
      var (a, b) := pair.value;
      if a !in sessions || b !in sessions {
        return;
      }
      OpenRoom(a, b);
    }

    method OpenRoom(a: nat, b: nat)
      requires Valid() && a in sessions && b in sessions
      modifies this, wheel
      ensures Valid() && State() == MakeRoom(old(State()), a, b)
    {
      hide W.WellFormed, CancelMatchTimer;
      ForgetMatchTimers(a, b);
      Enroll(a, b);
    }

    /** The room itself, and its two players moved into it. */
    method Enroll(a: nat, b: nat)
      requires a in sessions && b in sessions
      modifies this`sessions, this`rooms, this`table, this`nextRoom
      ensures nextRoom == old(nextRoom) + 1 && table == old(table) + {old(nextRoom)}
      ensures sessions == old(sessions)[a := EnterRoom(old(sessions)[a], old(nextRoom))]
                                       [b := EnterRoom(old(sessions)[b], old(nextRoom))]
      ensures rooms == old(rooms)[old(nextRoom) := Room(a, b,
        map[a := old(sessions)[a].conn, b := old(sessions)[b].conn],
                                                        false, false, [Start], [])]
    {
      var rid := nextRoom;
      nextRoom := nextRoom + 1;
      var sa, sb := sessions[a], sessions[b];
      var room := Room(a, b, map[a := sa.conn, b := sb.conn], false, false, [], []);
      table := table + {rid};
      sessions := sessions[a := EnterRoom(sa, rid)];
      sessions := sessions[b := EnterRoom(sb, rid)];
      assert [] + [Start] == [Start];
      rooms := rooms[rid := room.(pending := room.pending + [Start])];
    }

    method OnInput(c: Conn, input: M.Input)
      requires Valid()
      modifies this
      ensures Valid() && State() == Lobby.OnInput(old(State()), c, input)
    {
      hide W.WellFormed;
      var found := SessionOf(c);
      if found.None? || sessions[found.value].place != InRoom {
        return;
      }
      PostTask(sessions[found.value].roomId, Input(found.value, input));
    }

    method OnDisconnect(c: Conn)
      requires Valid()
      modifies this, queue, wheel, wheel.l0, wheel.l1
      ensures Valid() && State() == Lobby.OnDisconnect(old(State()), c)
    {
      hide W.WellFormed, Lobby.DropSession;
      if c !in connOf {
        return;
      }
      var pid := connOf[c];
      connOf := connOf - {c};
      if pid !in sessions {
        return;
      }
      DropSession(pid);
    }

    /** The rest of a disconnect: out of the queue, out of the room's broadcasts, and 30 s to
        come back. */
    method DropSession(pid: nat)
      requires Valid() && pid in sessions
      modifies this, queue, wheel, wheel.l0, wheel.l1
      ensures Valid() && State() == Lobby.DropSession(old(State()), pid)
    {
      hide W.WellFormed, W.Add, Post;
      var s := sessions[pid].(conn := None);
      if s.place == Matching {
        queue.Remove(pid);
        s := s.(place := InLobby);
      }
      if s.place == InRoom {
        PostTask(s.roomId, Drop(pid));
      }
      dropTick := dropTick[pid := wheel.nowTick];
      var timer := wheel.Add(SESSION_KEEP_MS, W.ExpireSession(pid));
      sessions := sessions[pid := s.(expireTimer := timer)];
    }

    /** Any other session in the same room; which one, if there were several, depends on the
        order of the hash map. */
    method FindOpponent(pid: nat) returns (winner: nat)
      requires Valid() && pid in sessions
      ensures winner != 0 ==> Opponent(sessions, pid, winner)
      ensures winner == 0 && 0 !in sessions ==> forall o :: !Opponent(sessions, pid, o)
      ensures OneOpponent(sessions, pid) ==> winner == Survivor(sessions, pid)
    {
      winner := 0;
      var todo := sessions.Keys;
      while todo != {}
        invariant todo <= sessions.Keys && (winner != 0 ==> Opponent(sessions, pid, winner))
        invariant forall o | Opponent(sessions, pid, o) && o !in todo && o != 0 :: winner != 0 || 0 in sessions
        decreases |todo|
      {
        var o :| o in todo;
        todo := todo - {o};
        if sessions[o].roomId == sessions[pid].roomId && o != pid {
          winner := o;
        }
      }
    }

    method ExpireSession(pid: nat) returns (ghost winner: nat)
      requires Valid()
      modifies this
      ensures Valid() && State() == ExpireFor(old(State()), pid, winner)
      ensures winner != 0 ==> Opponent(old(sessions), pid, winner)
      ensures winner == 0 && 0 !in old(sessions) && Forfeits(old(sessions), pid) ==>
        forall o :: !Opponent(old(sessions), pid, o)
      ensures (pid in old(sessions) && old(sessions)[pid].place == InRoom ==> OneOpponent(old(sessions), pid)) ==>
        State() == Lobby.ExpireSession(old(State()), pid)
    {
      hide W.WellFormed, Post, OneOpponent, Survivor, Opponent;
      winner := 0;
      if pid !in sessions || sessions[pid].conn.Some? {
        return;
      }
      var s := sessions[pid];
      if s.place == InRoom {
        var opponent := FindOpponent(pid);
        PostTask(s.roomId, ForceEnd(opponent));
        winner := opponent;
      }
      sessions := sessions - {pid};
      gone := gone[pid := wheel.nowTick];
    }

    /** A player still queued goes back to the lobby and, if connected, is told; `told` is
        the connection on which the failure is announced. */
    method OnMatchTimeout(pid: nat) returns (told: Option<Conn>)
      requires Valid()
      modifies this, queue
      ensures Valid() && State() == Lobby.OnMatchTimeout(old(State()), pid)
      ensures told == if pid in old(queue.waiting) && pid in old(sessions) then old(sessions)[pid].conn else None
    {
      hide W.WellFormed;
      matchTimer := matchTimer - {pid};
      if pid !in queue.waiting {
        return None;
      }
      queue.Remove(pid);
      if pid !in sessions {
        return None;
      }
      sessions := sessions[pid := sessions[pid].(place := InLobby)];
      return sessions[pid].conn;
    }

    method ScheduleSweep()
      requires Valid()
      modifies wheel, wheel.l0, wheel.l1
      ensures Valid() && State() == OnSweep(old(State()))
    {
      hide W.WellFormed, W.Add;
      var _ := wheel.Add(SWEEP_MS, W.Sweep);
    }

    /** Everybody in the room goes back to the lobby; the result is recorded when both
        accounts are known. */
    method OnRoomEnd(rid: nat, winner: nat) returns (ghost recorded: seq<Result>)
      requires Valid()
      modifies this
      ensures Valid() && Recordable(old(sessions), rid, winner, recorded)
      ensures State() == old(State()).(table := old(table) - {rid}, sessions := BackToLobby(old(sessions), rid),
                                       results := old(results) + recorded)
      ensures OneLoser(old(sessions), rid, winner) ==> State() == Lobby.OnRoomEnd(old(State()), rid, winner)
    {
      hide W.WellFormed, Outcome, OneLoser, BackToLobby;
      table := table - {rid};
      var winnerAcc, loserAcc, loser := SendBack(rid, winner);
      recorded := [];
      if winnerAcc != "" && loserAcc != "" {
        recorded := [Result(rid, winner, loser, winnerAcc, loserAcc)];
      }
      results := results + recorded;
      FoundRecordable(old(sessions), rid, winner, winnerAcc, loserAcc, loser);
      if OneLoser(old(sessions), rid, winner) {
        OutcomeIs(old(sessions), rid, winner, winnerAcc, loserAcc, loser);
      }
    }

    /** What the walk over the sessions finds. */
    static ghost predicate Found(all: map<nat, Session>, seen: set<nat>, rid: nat, winner: nat, winnerAcc: string,
                                 loserAcc: string, loser: nat) {
      && winnerAcc == (if winner in seen && Plays(all, winner, rid) then all[winner].account else "")
      && (loserAcc != "" ==>
            loser in seen && loser != winner && Plays(all, loser, rid) && loserAcc == all[loser].account)
      && (Plays(all, winner, rid) && OneLoser(all, rid, winner) ==>
            forall l | l in seen && l != winner && Plays(all, l, rid) :: loserAcc == all[l].account)
    }

    method SendBack(rid: nat, winner: nat) returns (winnerAcc: string, loserAcc: string, ghost loser: nat)
      modifies this`sessions
      ensures sessions == BackToLobby(old(sessions), rid)
      ensures Found(old(sessions), old(sessions).Keys, rid, winner, winnerAcc, loserAcc, loser)
    {
      hide Found, OneLoser, PartlyBack;
      winnerAcc, loserAcc, loser := "", "", 0;
      var todo := sessions.Keys;
      ghost var all := sessions;
      FoundNothing(all, rid, winner);
      BackAtEnds(all, rid);
      assert all.Keys - todo == {};
      while todo != {}
        invariant todo <= all.Keys && sessions == PartlyBack(all, todo, rid)
        invariant Found(all, all.Keys - todo, rid, winner, winnerAcc, loserAcc, loser)
        decreases |todo|
      {
        var p :| p in todo;
        BackOneMore(all, todo, p, rid);
        var s := sessions[p];
        FindOneMore(all, all.Keys - todo, p, rid, winner, winnerAcc, loserAcc, loser);
        if s.roomId == rid {
          if p == winner {
            winnerAcc := s.account;
          } else {
            loserAcc, loser := s.account, p;
          }
          sessions := sessions[p := s.(roomId := 0, place := InLobby)];
        }
        assert all.Keys - (todo - {p}) == (all.Keys - todo) + {p};
        todo := todo - {p};
      }
      assert all.Keys - {} == all.Keys;
    }

    /** The sessions when those in `todo` have not been reached yet. */
    static ghost function PartlyBack(all: map<nat, Session>, todo: set<nat>, rid: nat): map<nat, Session> {
      map p | p in all :: if p in todo || all[p].roomId != rid then all[p] else all[p].(roomId := 0, place := InLobby)
    }

    static lemma BackAtEnds(all: map<nat, Session>, rid: nat)
      ensures PartlyBack(all, all.Keys, rid) == all && PartlyBack(all, {}, rid) == BackToLobby(all, rid)
    {
    }

    static lemma BackOneMore(all: map<nat, Session>, todo: set<nat>, p: nat, rid: nat)
      requires p in todo && p in all
      ensures p in PartlyBack(all, todo, rid) && PartlyBack(all, todo, rid)[p] == all[p]
      ensures
        var before, after := PartlyBack(all, todo, rid), PartlyBack(all, todo - {p}, rid);
        after == if all[p].roomId == rid then before[p := all[p].(roomId := 0, place := InLobby)] else before
    {
    }

    static lemma FoundNothing(all: map<nat, Session>, rid: nat, winner: nat)
      ensures Found(all, {}, rid, winner, "", "", 0)
    {
    }

    static lemma FindOneMore(all: map<nat, Session>, seen: set<nat>, p: nat, rid: nat, winner: nat, winnerAcc: string,
                             loserAcc: string, loser: nat)
      requires Found(all, seen, rid, winner, winnerAcc, loserAcc, loser) && p in all && p !in seen
      ensures
        if all[p].roomId != rid then Found(all, seen + {p}, rid, winner, winnerAcc, loserAcc, loser)
        else if p == winner then Found(all, seen + {p}, rid, winner, all[p].account, loserAcc, loser)
        else Found(all, seen + {p}, rid, winner, winnerAcc, all[p].account, p)
    {
      if all[p].roomId == rid && p != winner {
        assert Plays(all, p, rid);
        if Plays(all, winner, rid) && OneLoser(all, rid, winner) {
          assert forall l | l in all && l != winner && Plays(all, l, rid) :: l == p;
        }
      }
    }

    static lemma FoundRecordable(all: map<nat, Session>, rid: nat, winner: nat, winnerAcc: string, loserAcc: string,
                                 loser: nat)
      requires Found(all, all.Keys, rid, winner, winnerAcc, loserAcc, loser)
      ensures Recordable(all, rid, winner,
                if winnerAcc != "" && loserAcc != "" then [Result(rid, winner, loser, winnerAcc, loserAcc)] else [])
    {
    }

    static lemma OutcomeIs(all: map<nat, Session>, rid: nat, winner: nat, winnerAcc: string, loserAcc: string,
                           loser: nat)
      requires Found(all, all.Keys, rid, winner, winnerAcc, loserAcc, loser) && OneLoser(all, rid, winner)
      ensures Outcome(all, rid, winner) ==
        if winnerAcc != "" && loserAcc != "" then [Result(rid, winner, loser, winnerAcc, loserAcc)] else []
    {
      var r := Outcome(all, rid, winner);
      if winnerAcc != "" && loserAcc != "" {
        assert loser != winner && Plays(all, loser, rid) && all[loser].account != "";
        assert |r| == 1;
        assert r[0].loser == loser;
      } else if winnerAcc != "" {
        assert Plays(all, winner, rid);
        assert forall l | l != winner && Plays(all, l, rid) :: all[l].account == loserAcc;
        assert r == [];
      } else {
        assert Plays(all, winner, rid) ==> all[winner].account == "";
        assert r == [];
      }
    }
  }
}
