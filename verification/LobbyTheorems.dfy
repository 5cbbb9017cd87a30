/**
 What the invariant means, stated for every state that some run of the server reaches.
 */
module LobbyTheorems {
  import opened Prelude
  import opened Lobby
  import opened LobbyInv
  import W = WheelModel
  import Q = QueueModel
  import M = SimModel

  ghost predicate Reachable(st: System) {
    exists steps :: ValidRun(Initial(), steps) && After(Initial(), steps) == st
  }

  lemma ReachableInv(st: System)
    requires Reachable(st)
    ensures Inv(st) && Sane(st)
  {
    var steps :| ValidRun(Initial(), steps) && After(Initial(), steps) == st;
    hide Inv, Sane, Initial, ValidRun, After;
    InitialInv();
    RunInv(Initial(), steps);
    InvSane(st);
  }

  /**
   The lobby's bookkeeping in every reachable state: exactly the matching players are queued,
   exactly those in a room name one, and that room is in the table; a mapped connection
   belongs to a session holding it; nobody disconnected is queued; at most one player waits.
   */
  lemma LobbyIsConsistent(st: System)
    requires Reachable(st)
    ensures forall pid :: pid in st.queue.waiting <==> pid in st.sessions && st.sessions[pid].place == Matching
    ensures forall pid | pid in st.sessions ::
      && (st.sessions[pid].place == InRoom <==> st.sessions[pid].roomId != 0)
      && (st.sessions[pid].place == InRoom ==>
        st.sessions[pid].roomId in st.table && st.sessions[pid].roomId in st.rooms)
      && (st.sessions[pid].conn == None ==> st.sessions[pid].place != Matching)
    ensures forall c | c in st.connOf :: st.connOf[c] in st.sessions && st.sessions[st.connOf[c]].conn == Some(c)
    ensures |st.queue.waiting| <= 1
  {
    hide Reachable;
    ReachableInv(st);
    hide W.Inv, W.Flat, TimersOk, RoomsOk, EndsOk, ResultsOk, GoneOk, MatchTimersOk, Agrees;
    Q.SettledAtMostOne(st.queue);
  }

  /**
   Agreement of lobby and rooms.  In every reachable state, a session that is in a room is
   in a room of the table, as one of its two players, and once the tasks already posted
   have run, that room sends to exactly the session's connection.
   */
  lemma RoomFollowsSession(st: System, pid: nat)
    requires Reachable(st) && pid in st.sessions && st.sessions[pid].place == InRoom
    ensures
      var s := st.sessions[pid];
      && s.roomId in st.table && s.roomId in st.rooms
      && pid in st.rooms[s.roomId].conns
      && Binding(st.rooms[s.roomId], pid) == s.conn
      && (st.rooms[s.roomId].pending == [] ==> st.rooms[s.roomId].conns[pid] == s.conn)
  {
    hide Reachable;
    ReachableInv(st);
    hide W.Inv, W.Flat, Q.Settled, ConnsOk, TimersOk, RoomsOk, EndsOk, ResultsOk, GoneOk, MatchTimersOk;
    var rid := st.sessions[pid].roomId;
    assert Agrees(st.sessions, rid, st.rooms[rid], pid);
  }

  /** A room still in the table never ends up sending to a player whose session is gone. */
  lemma RoomForgetsTheGone(st: System, rid: nat, pid: nat)
    requires Reachable(st) && rid in st.table && rid in st.rooms && pid in st.rooms[rid].conns && pid !in st.sessions
    ensures Binding(st.rooms[rid], pid) == None
  {
    hide Reachable;
    ReachableInv(st);
    hide W.Inv, W.Flat, Q.Settled, SessionsOk, ConnsOk, TimersOk, RoomsOk, EndsOk, ResultsOk, GoneOk, MatchTimersOk;
    assert Agrees(st.sessions, rid, st.rooms[rid], pid);
  }

  /** The expiry timers of a player. */
  ghost function ExpiryTimers(st: System, pid: nat): set<nat> {
    set t | t in W.Flat(st.wheel) && W.Flat(st.wheel)[t].cb == W.ExpireSession(pid)
  }

  /**
   Keep-alive.  In every reachable state a session has no connection exactly when it owns
   exactly one live expiry timer; that timer is due 300 ticks after the latest disconnect
   and never overdue.  Every player ever admitted either has a session or lost it exactly
   300 ticks after the latest disconnect.
   */
  lemma SessionKeptFor300Ticks(st: System, pid: nat)
    requires Reachable(st) && 1 <= pid < st.nextPlayer
    ensures pid in st.sessions ==>
      if st.sessions[pid].conn == None then
        && ExpiryTimers(st, pid) == {st.sessions[pid].expireTimer}
        && pid in st.dropTick
        && W.Flat(st.wheel)[st.sessions[pid].expireTimer].expiry == st.dropTick[pid] + KEEP_TICKS
        && st.wheel.now <= st.dropTick[pid] + KEEP_TICKS
        && (st.wheel.firing == [] ==> st.wheel.now < st.dropTick[pid] + KEEP_TICKS)
      else ExpiryTimers(st, pid) == {}
    ensures pid !in st.sessions ==>
      pid in st.gone && pid in st.dropTick && st.gone[pid] == st.dropTick[pid] + KEEP_TICKS
  {
    hide Reachable;
    ReachableInv(st);
    hide W.Inv, W.Flat, Q.Settled, SessionsOk, ConnsOk, RoomsOk, AgreementOk, EndsOk, ResultsOk, MatchTimersOk;
    W.NothingOverdue(st.wheel);
  }

  // ---------------------------------------------------------------- what steps keep

  /** What no step takes back: a room keeps its players, and a destroyed session stays so. */
  ghost predicate Keeps(st: System, st': System) {
    && (forall rid | rid in st.rooms ::
      rid in st'.rooms && st'.rooms[rid].a == st.rooms[rid].a && st'.rooms[rid].b == st.rooms[rid].b)
    && (forall pid | pid in st.gone :: pid in st'.gone)
  }

  /** Also no session and no result. */
  ghost predicate KeepsAll(st: System, st': System) {
    && Keeps(st, st') && st'.results == st.results
    && (forall pid | pid in st.sessions :: pid in st'.sessions)
  }

  lemma ReconnectKeeps(st: System, c: Conn, pid: nat, token: nat)
    requires Sane(st)
    ensures KeepsAll(st, OnReconnect(st, c, pid, token))
  {
    hide W.Cancel, W.WellFormed, Q.Ok;
  }

  lemma DisconnectKeeps(st: System, c: Conn)
    requires Sane(st)
    ensures KeepsAll(st, OnDisconnect(st, c))
  {
    hide W.Add, W.WellFormed, Q.Ok, Q.Remove;
  }

  lemma MatchKeeps(st: System, c: Conn)
    requires Sane(st) && st.nextRoom !in st.rooms
    ensures KeepsAll(st, OnMatch(st, c))
  {
    hide Q.PopPair, W.Add, W.WellFormed, Q.Ok, CancelMatchTimer;
  }

  lemma RoomStepKeeps(st: System, rid: nat)
    requires Sane(st) && rid in st.rooms && st.rooms[rid].pending != []
    ensures KeepsAll(st, RunRoomTask(st, rid))
  {
    hide RunRoomTask, AfterTask, AfterEnd, W.WellFormed, Q.Ok;
    TaskIsAfterTask(st, rid);
    SamePlayers(st.rooms[rid]);
  }

  lemma SamePlayers(room: Room)
    requires room.pending != []
    ensures AfterTask(room).a == room.a && AfterTask(room).b == room.b
    ensures forall w :: AfterEnd(AfterTask(room), w).a == room.a && AfterEnd(AfterTask(room), w).b == room.b
  {
    hide Bind;
  }

  lemma FreshRoomId(st: System)
    requires Inv(st)
    ensures st.nextRoom !in st.rooms
  {
    hide W.Inv, W.Flat, Q.Settled, SessionsOk, ConnsOk, TimersOk, AgreementOk, EndsOk, ResultsOk, GoneOk, MatchTimersOk,
      RoomOk;
  }

  lemma MostStepsKeep(st: System, s: Step)
    requires Inv(st) && Sane(st) && Enabled(st, s) && s != WheelFire && s != LobbyTask
    ensures KeepsAll(st, Apply(st, s))
  {
    hide Inv, Sane, OnReconnect, OnMatch, OnDisconnect, RunRoomTask, W.StartTick, TickRoom, OnInput;
    FreshRoomId(st);
    match s {
      case Reconnect(c, pid, token) => ReconnectKeeps(st, c, pid, token);
      case MatchReq(c) => MatchKeeps(st, c);
      case Disconnect(c) => DisconnectKeeps(st, c);
      case RoomStep(rid) => RoomStepKeeps(st, rid);
      case RoomTick(rid, delta, w) => RoomTickKeeps(st, rid, delta, w);
      case InputReq(c, input) => InputKeeps(st, c, input);
      case _ =>
    }
  }

  lemma RoomTickKeeps(st: System, rid: nat, delta: bool, w: nat)
    requires Sane(st) && rid in st.rooms
    ensures KeepsAll(st, TickRoom(st, rid, delta, w))
  {
    hide Sane;
  }

  lemma InputKeeps(st: System, c: Conn, input: M.Input)
    requires Sane(st)
    ensures KeepsAll(st, OnInput(st, c, input))
  {
    hide Sane;
  }

  lemma FireKeeps(st: System)
    requires Sane(st) && st.wheel.firing != []
    ensures Keeps(st, FireTimer(st)) && FireTimer(st).results == st.results
  {
    assert st.wheel.firing[0] in st.wheel.firing;
    var n := st.wheel.nodes[st.wheel.firing[0]];
    hide W.FireNext, W.WellFormed, Q.Ok, OnMatchTimeout, ExpireSession, OnSweep;
    var st1 := st.(wheel := W.FireNext(st.wheel));
    match n.cb {
      case MatchTimeout(pid) => TimeoutKeeps(st1, pid);
      case ExpireSession(pid) => ExpireKeeps(st1, pid);
      case Sweep => SweepKeeps(st1);
    }
  }

  lemma TimeoutKeeps(st: System, pid: nat)
    requires Sane(st)
    ensures KeepsAll(st, OnMatchTimeout(st, pid))
  {
    hide Sane, Q.Remove;
  }

  lemma SweepKeeps(st: System)
    requires Sane(st)
    ensures KeepsAll(st, OnSweep(st))
  {
    hide W.WellFormed, Q.Ok, W.Add;
  }

  lemma ExpireKeeps(st: System, pid: nat)
    requires Sane(st)
    ensures Keeps(st, ExpireSession(st, pid)) && ExpireSession(st, pid).results == st.results
  {
    hide W.WellFormed, Q.Ok, Survivor;
  }

  lemma LobbyTaskKeeps(st: System)
    requires Sane(st) && st.inbox != []
    ensures Keeps(st, RunLobbyTask(st)) && (forall pid | pid in st.sessions :: pid in RunLobbyTask(st).sessions)
  {
    hide W.WellFormed, Q.Ok, Outcome;
  }

  /** A session disappears only when its own expiry timer fires, 300 ticks after a
      disconnect that no reconnect followed; and when that timer fires the session is
      always there and always disconnected. */
  lemma OnlyExpiryErases(st: System, s: Step, pid: nat)
    requires Reachable(st) && Enabled(st, s) && pid in st.sessions
    ensures Sane(st)
    ensures pid !in Apply(st, s).sessions ==>
      && s == WheelFire && st.sessions[pid].conn == None && pid in st.dropTick
      && st.wheel.now == st.dropTick[pid] + KEEP_TICKS
      && st.wheel.firing[0] == st.sessions[pid].expireTimer
  {
    hide Reachable, Inv, Sane, FireTimer, RunLobbyTask;
    ReachableInv(st);
    match s {
      case WheelFire => FireErases(st, pid);
      case LobbyTask => LobbyTaskKeeps(st);
      case _ => MostStepsKeep(st, s); hide Apply;
    }
  }

  lemma FireErases(st: System, pid: nat)
    requires Inv(st) && Sane(st) && st.wheel.firing != [] && pid in st.sessions
    ensures pid !in FireTimer(st).sessions ==>
      && st.sessions[pid].conn == None && pid in st.dropTick
      && st.wheel.now == st.dropTick[pid] + KEEP_TICKS
      && st.wheel.firing[0] == st.sessions[pid].expireTimer
  {
    hide W.Inv, W.Flat, Q.Settled, SessionsOk, ConnsOk, RoomsOk, AgreementOk, EndsOk, ResultsOk, MatchTimersOk, GoneOk,
      W.FireNext, W.Add, Q.Ok, W.WellFormed, Survivor;
    W.NextIsLive(st.wheel);
    var n := st.wheel.nodes[st.wheel.firing[0]];
    if !n.canceled && n.cb.ExpireSession? {
      FiredExpiry(st.sessions, W.Flat(st.wheel), st.dropTick, st.wheel.firing[0]);
    }
  }

  /** The guard in the expiry callback never triggers: whenever the next timer to fire is an
      expiry timer, its session exists and has not been reconnected. */
  lemma ExpiryGuardNeverTriggers(st: System)
    requires Reachable(st) && st.wheel.firing != [] && Sane(st)
    requires var n := st.wheel.nodes[st.wheel.firing[0]]; !n.canceled && n.cb.ExpireSession?
    ensures
      var pid := st.wheel.nodes[st.wheel.firing[0]].cb.pid;
      pid in st.sessions && st.sessions[pid].conn == None && pid !in FireTimer(st).sessions
  {
    hide Reachable;
    ReachableInv(st);
    hide W.Inv, W.Flat, Q.Settled, SessionsOk, ConnsOk, RoomsOk, AgreementOk, EndsOk, ResultsOk, MatchTimersOk, GoneOk,
      Q.Ok, W.WellFormed, FireTimer;
    W.NextIsLive(st.wheel);
    FiredExpiry(st.sessions, W.Flat(st.wheel), st.dropTick, st.wheel.firing[0]);
    ExpiryErases(st);
  }

  lemma ExpiryErases(st: System)
    requires Sane(st) && st.wheel.firing != []
    requires var n := st.wheel.nodes[st.wheel.firing[0]]; !n.canceled && n.cb.ExpireSession?
    requires
      var pid := st.wheel.nodes[st.wheel.firing[0]].cb.pid;
      pid in st.sessions && st.sessions[pid].conn == None
    ensures st.wheel.nodes[st.wheel.firing[0]].cb.pid !in FireTimer(st).sessions
  {
    hide Sane, W.FireNext, Survivor, Post;
  }

  /** Whenever the queue yields a pair, both sessions are there and connected. */
  lemma PairAlwaysFound(st: System, c: Conn)
    requires Reachable(st) && Sane(st) && SessionOf(st, c).Some?
    requires st.sessions[SessionOf(st, c).value].place == InLobby
    ensures
      var pid := SessionOf(st, c).value;
      var st1 := Enqueue(st, pid);
      var pair := Q.PopPair(st1.queue).1;
      && pid !in st.queue.waiting
      && pid in st1.sessions && st1.sessions[pid].conn == Some(c)
      && (forall a, b | pair == Some((a, b)) ::
            && b == pid && a in st.queue.waiting && a != pid
            && a in st1.sessions && st1.sessions[a].place == Matching && st1.sessions[a].conn != None)
  {
    hide Reachable;
    ReachableInv(st);
    var pid := SessionOf(st, c).value;
    MappedConn(st, c);
    LobbyNotWaiting(st, pid);
    hide W.Inv, W.Flat, ConnsOk, TimersOk, RoomsOk, AgreementOk, EndsOk, ResultsOk, GoneOk, MatchTimersOk, W.Add,
      W.WellFormed, Q.PopPair, Q.Settled, Q.Push;
    Q.PushThenPop(st.queue, pid);
  }

  lemma LobbyNotWaiting(st: System, pid: nat)
    requires Inv(st) && pid in st.sessions && st.sessions[pid].place == InLobby
    ensures pid !in st.queue.waiting
  {
    hide W.Inv, W.Flat, Q.Settled, ConnsOk, TimersOk, RoomsOk, AgreementOk, EndsOk, ResultsOk, GoneOk, MatchTimersOk;
  }

  /** A match timer, however stale, never moves a player who is in a room. */
  lemma StaleMatchTimerHarmless(st: System, timedOut: nat, pid: nat)
    requires Reachable(st) && Sane(st) && pid in st.sessions && st.sessions[pid].place == InRoom
    ensures pid in OnMatchTimeout(st, timedOut).sessions
    ensures OnMatchTimeout(st, timedOut).sessions[pid] == st.sessions[pid]
  {
    hide Reachable, Inv, OnMatchTimeout, Sane;
    ReachableInv(st);
    InRoomNotWaiting(st, pid);
    TimeoutMoves(st, timedOut, pid);
  }

  /** A timeout moves only a player who waits. */
  lemma TimeoutMoves(st: System, timedOut: nat, pid: nat)
    requires Sane(st) && pid in st.sessions && pid !in st.queue.waiting
    ensures pid in OnMatchTimeout(st, timedOut).sessions
    ensures OnMatchTimeout(st, timedOut).sessions[pid] == st.sessions[pid]
  {
    hide Sane;
  }

  lemma InRoomNotWaiting(st: System, pid: nat)
    requires Inv(st) && pid in st.sessions && st.sessions[pid].place == InRoom
    ensures pid !in st.queue.waiting
  {
    hide W.Inv, W.Flat, Q.Settled, ConnsOk, TimersOk, RoomsOk, AgreementOk, EndsOk, ResultsOk, GoneOk, MatchTimersOk;
  }

  function CountEnds(out: seq<RoomMsg>): nat {
    if out == [] then 0 else (if out[|out| - 1].EndMsg? then 1 else 0) + CountEnds(out[..|out| - 1])
  }

  lemma {:induction false} NoEnds(out: seq<RoomMsg>)
    requires forall i | 0 <= i < |out| :: !out[i].EndMsg?
    ensures CountEnds(out) == 0
    decreases |out|
  {
    if out != [] {
      NoEnds(out[..|out| - 1]);
    }
  }

  function CountEndTasks(inbox: seq<RoomEnd>, rid: nat): nat {
    if inbox == [] then 0 else (if inbox[0].rid == rid then 1 else 0) + CountEndTasks(inbox[1..], rid)
  }

  lemma {:induction false} AtMostOneTask(inbox: seq<RoomEnd>, rid: nat)
    requires forall i, j | 0 <= i < j < |inbox| :: inbox[i].rid != inbox[j].rid
    ensures CountEndTasks(inbox, rid) == if Announced(inbox, rid) then 1 else 0
    decreases |inbox|
  {
    if inbox != [] {
      var rest := inbox[1..];
      assert forall i | 0 <= i < |rest| :: rest[i] == inbox[i + 1];
      AtMostOneTask(rest, rid);
      assert Announced(inbox, rid) <==> inbox[0].rid == rid || Announced(rest, rid) by {
        if Announced(rest, rid) {
          var i :| 0 <= i < |rest| && rest[i].rid == rid;
          assert inbox[i + 1].rid == rid;
        }
      }
      assert inbox[0].rid == rid ==> !Announced(rest, rid);
    }
  }

  /**
   One ending per room.  In every reachable state a room has broadcast the end of the
   battle once if it has ended and never otherwise, nothing after it, and exactly one
   notice to the lobby is under way while it has ended but is still in the table.
   */
  lemma OneEndingPerRoom(st: System, rid: nat)
    requires Reachable(st) && rid in st.rooms
    ensures
      var room := st.rooms[rid];
      && CountEnds(room.out) == (if room.ended then 1 else 0)
      && (room.ended ==> room.out != [] && room.out[|room.out| - 1].EndMsg?)
      && CountEndTasks(st.inbox, rid) == (if room.ended && rid in st.table then 1 else 0)
      && (!room.ended ==> rid in st.table)
  {
    hide Reachable;
    ReachableInv(st);
    hide W.Inv, W.Flat, Q.Settled, SessionsOk, ConnsOk, TimersOk, AgreementOk, ResultsOk, GoneOk, MatchTimersOk,
      PendingOk;
    var room := st.rooms[rid];
    assert RoomOk(room);
    var body := if room.ended then room.out[..|room.out| - 1] else room.out;
    NoEnds(body);
    AtMostOneTask(st.inbox, rid);
    assert Announced(st.inbox, rid) ==> room.ended && rid in st.table;
  }

  /** At most one result is recorded per room; its winner and loser are the two distinct
      players that were matched into it. */
  lemma OneResultPerRoom(st: System, i: nat)
    requires Reachable(st) && i < |st.results|
    ensures
      var r := st.results[i];
      && r.rid in st.rooms && st.rooms[r.rid].ended
      && r.winner != r.loser && {r.winner, r.loser} == {st.rooms[r.rid].a, st.rooms[r.rid].b}
      && (forall j | 0 <= j < |st.results| && st.results[j].rid == r.rid :: j == i)
  {
    hide Reachable;
    ReachableInv(st);
    hide W.Inv, W.Flat, Q.Settled, SessionsOk, ConnsOk, TimersOk, AgreementOk, GoneOk, MatchTimersOk, PendingOk, OutOk;
    assert RoomOk(st.rooms[st.results[i].rid]);
  }

  // ---------------------------------------------------------------- forfeits

  /** One of the two players has lost its session and no result is on record. */
  ghost predicate Forfeited(st: System, rid: nat) {
    && rid in st.rooms
    && (st.rooms[rid].a in st.gone || st.rooms[rid].b in st.gone)
    && (forall i | 0 <= i < |st.results| :: st.results[i].rid != rid)
  }

  lemma OutcomeNeedsBoth(st: System, rid: nat, winner: nat)
    requires Inv(st) && rid in st.table && Forfeited(st, rid)
    ensures Outcome(st.sessions, rid, winner) == []
  {
    hide W.Inv, W.Flat, Q.Settled, ConnsOk, TimersOk, EndsOk, ResultsOk, MatchTimersOk, PendingOk, OutOk, Agrees;
    var room := st.rooms[rid];
    assert RoomOk(room);
    var (lost, left) := if room.a in st.gone then (room.a, room.b) else (room.b, room.a);
    assert lost !in st.sessions;
    forall x | Plays(st.sessions, x, rid) ensures x == left {
      assert x in room.conns.Keys;
    }
  }

  lemma StepForfeit(st: System, s: Step, rid: nat)
    requires Inv(st) && Sane(st) && Enabled(st, s) && Forfeited(st, rid)
    ensures Forfeited(Apply(st, s), rid)
  {
    hide Inv, Sane, FireTimer, RunLobbyTask, Forfeited, Keeps, KeepsAll;
    match s {
      case LobbyTask => LobbyTaskForfeit(st, rid);
      case WheelFire => FireKeeps(st); KeptForfeit(st, FireTimer(st), rid);
      case _ => MostStepsKeep(st, s); KeepsForfeit(st, s, rid);
    }
  }

  lemma KeptForfeit(st: System, st': System, rid: nat)
    requires Forfeited(st, rid) && Keeps(st, st') && st'.results == st.results
    ensures Forfeited(st', rid)
  {
  }

  lemma KeepsForfeit(st: System, s: Step, rid: nat)
    requires Sane(st) && Enabled(st, s) && Forfeited(st, rid) && KeepsAll(st, Apply(st, s))
    ensures Forfeited(Apply(st, s), rid)
  {
    hide Sane, Apply, Forfeited, Keeps;
    KeptForfeit(st, Apply(st, s), rid);
  }

  lemma LobbyTaskForfeit(st: System, rid: nat)
    requires Inv(st) && Sane(st) && st.inbox != [] && Forfeited(st, rid)
    ensures Forfeited(RunLobbyTask(st), rid)
  {
    hide Inv, Sane, Outcome, BackToLobby;
    var e := st.inbox[0];
    if e.rid == rid {
      InboxRid(st);
      OutcomeNeedsBoth(st, rid, e.winner);
    }
    assert RunLobbyTask(st).results == st.results + Outcome(st.sessions, e.rid, e.winner);
  }

  lemma InboxRid(st: System)
    requires Inv(st) && st.inbox != []
    ensures st.inbox[0].rid in st.table
  {
    hide W.Inv, W.Flat, Q.Settled, SessionsOk, ConnsOk, TimersOk, AgreementOk, ResultsOk, GoneOk, MatchTimersOk,
      RoomsOk;
  }

  /**
   A battle decided by forfeit is never recorded: once a player of a room has lost the
   session before a result was recorded, no continuation of the run records one.
   */
  lemma {:induction false} ForfeitNeverRecorded(st: System, steps: seq<Step>, rid: nat)
    requires Inv(st) && Sane(st) && ValidRun(st, steps) && Forfeited(st, rid)
    ensures Forfeited(After(st, steps), rid)
    decreases |steps|
  {
    hide Inv, Sane, Apply, Forfeited;
    if steps != [] {
      StepInv(st, steps[0]);
      StepForfeit(st, steps[0], rid);
      ForfeitNeverRecorded(Apply(st, steps[0]), steps[1..], rid);
    }
  }
}
