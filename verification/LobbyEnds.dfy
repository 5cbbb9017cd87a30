/**
 The life of a room: it ticks from its start to its end, and the winner announced to its
 players is the one the lobby hears of and the one that is recorded.
 */
module LobbyEnds {
  import opened Prelude
  import opened Lobby
  import opened LobbyInv
  import opened LobbyTheorems
  import opened LobbyHistory
  import opened LobbyPosts
  import W = WheelModel
  import Q = QueueModel
  import M = SimModel

  /** Waiting for its start, ticking, or ended with the ticker stopped or about to be. */
  ghost predicate Lives(room: Room) {
    && (!room.ticking && !room.ended ==> room.pending != [] && room.pending[0] == Start)
    && (StopTicker in room.pending ==> room.ended)
    && (room.ended && room.ticking ==> StopTicker in room.pending)
  }

  /** The players of an ended room have been told this winner last. */
  ghost predicate Tells(rooms: map<nat, Room>, rid: nat, winner: nat) {
    && rid in rooms && rooms[rid].ended
    && rooms[rid].out != [] && rooms[rid].out[|rooms[rid].out| - 1] == EndMsg(winner)
  }

  /** All rooms live, and the lobby is and was told what the players were told. */
  ghost predicate AllLive(st: System) {
    forall rid | rid in st.rooms :: Lives(st.rooms[rid])
  }

  ghost predicate SameNews(rooms: map<nat, Room>, inbox: seq<RoomEnd>, results: seq<Result>) {
    && (forall i | 0 <= i < |inbox| :: Tells(rooms, inbox[i].rid, inbox[i].winner))
    && (forall i | 0 <= i < |results| :: Tells(rooms, results[i].rid, results[i].winner))
  }

  // ---------------------------------------------------------------- one room

  lemma ChangeLives(room: Room, ch: Change)
    requires RoomOk(room) && Lives(room) && Applies(room, ch)
    ensures Lives(Changed(room, ch))
  {
    hide OutOk, Bind;
    if ch.Ran? {
      assert room.pending == [room.pending[0]] + room.pending[1..];
    }
  }

  /** Nothing is announced behind the end. */
  lemma ChangeTells(room: Room, ch: Change)
    requires RoomOk(room) && room.ended && Applies(room, ch)
    ensures Changed(room, ch).ended && Changed(room, ch).out == room.out
  {
    hide Bind;
  }

  /** An end is announced to the players as it happens. */
  lemma EndTells(room: Room, winner: nat)
    ensures AfterEnd(room, winner).ended
    ensures
      var out := AfterEnd(room, winner).out;
      out != [] && out[|out| - 1] == EndMsg(winner)
  {
  }

  lemma GoodRoom(st: System, rid: nat)
    requires Inv(st) && rid in st.rooms
    ensures RoomOk(st.rooms[rid])
  {
    hide W.Inv, W.Flat, Q.Settled, SessionsOk, ConnsOk, TimersOk, AgreementOk, EndsOk, ResultsOk, GoneOk, MatchTimersOk,
      RoomOk;
  }

  // ---------------------------------------------------------------- rooms live on

  /** A room that a step has made is waiting for its start. */
  lemma NewRoomWaits(st: System, s: Step, rid: nat)
    requires Inv(st) && Sane(st) && Enabled(st, s) && rid !in st.rooms && rid in Apply(st, s).rooms
    ensures Apply(st, s).rooms[rid].pending == [Start] && !Apply(st, s).rooms[rid].ended
  {
    hide Inv, Sane, OnReconnect, OnMatch, OnDisconnect, RunRoomTask, TickRoom, OnInput, FireTimer, Outcome, W.StartTick;
    match s {
      case MatchReq(c) => MatchNewRoom(st, c, rid);
      case _ => SameRoomIds(st, s);
    }
  }

  lemma PostIds(rooms: map<nat, Room>, table: set<nat>, rid: nat, t: RoomTask)
    ensures Post(rooms, table, rid, t).Keys == rooms.Keys
  {
  }

  lemma ReconnectIds(st: System, c: Conn, pid: nat, token: nat)
    requires Sane(st)
    ensures OnReconnect(st, c, pid, token).rooms.Keys == st.rooms.Keys
    ensures OnReconnect(st, c, pid, token).inbox == st.inbox && OnReconnect(st, c, pid, token).results == st.results
  {
    hide Sane, W.Cancel, Post;
    if Accepts(st, pid, token) {
      PostIds(st.rooms, st.table, st.sessions[pid].roomId, Rebind(pid, c));
    }
  }

  lemma InputIds(st: System, c: Conn, i: M.Input)
    requires Sane(st)
    ensures OnInput(st, c, i).rooms.Keys == st.rooms.Keys
    ensures OnInput(st, c, i).inbox == st.inbox && OnInput(st, c, i).results == st.results
  {
    hide Sane, Post;
    if SessionOf(st, c).Some? {
      var pid := SessionOf(st, c).value;
      PostIds(st.rooms, st.table, st.sessions[pid].roomId, Input(pid, i));
    }
  }

  lemma DisconnectIds(st: System, c: Conn)
    requires Sane(st)
    ensures OnDisconnect(st, c).rooms.Keys == st.rooms.Keys
    ensures OnDisconnect(st, c).inbox == st.inbox && OnDisconnect(st, c).results == st.results
  {
    hide W.WellFormed, Q.Ok, W.Add, Post, Q.Remove;
    if c in st.connOf && st.connOf[c] in st.sessions {
      PostIds(st.rooms, st.table, st.sessions[st.connOf[c]].roomId, Drop(st.connOf[c]));
    }
  }

  lemma CallbackIds(st: System, cb: W.Callback)
    requires Sane(st)
    ensures Callback(st, cb).rooms.Keys == st.rooms.Keys
    ensures Callback(st, cb).inbox == st.inbox && Callback(st, cb).results == st.results
  {
    hide Sane, Post, W.Add, Survivor, Q.Remove;
    if cb.ExpireSession? && cb.pid in st.sessions {
      PostIds(st.rooms, st.table, st.sessions[cb.pid].roomId, ForceEnd(Survivor(st.sessions, cb.pid)));
    }
  }

  lemma FireIds(st: System)
    requires Sane(st) && st.wheel.firing != []
    ensures FireTimer(st).rooms.Keys == st.rooms.Keys
    ensures FireTimer(st).inbox == st.inbox && FireTimer(st).results == st.results
  {
    assert st.wheel.firing[0] in st.wheel.firing;
    hide W.FireNext, W.WellFormed, Q.Ok, Callback;
    var n := st.wheel.nodes[st.wheel.firing[0]];
    if !n.canceled {
      CallbackIds(st.(wheel := W.FireNext(st.wheel)), n.cb);
    }
  }

  lemma RoomStepIds(st: System, r: nat)
    requires Sane(st) && r in st.rooms && st.rooms[r].pending != []
    ensures RunRoomTask(st, r).rooms.Keys == st.rooms.Keys
  {
    hide Sane, RunRoomTask, AfterTask, AfterEnd;
    TaskIsAfterTask(st, r);
  }

  lemma RoomTickIds(st: System, r: nat, delta: bool, w: nat)
    requires Sane(st) && r in st.rooms
    ensures TickRoom(st, r, delta, w).rooms.Keys == st.rooms.Keys
  {
    hide Sane, AfterDelta, AfterEnd;
    if !st.rooms[r].ended {
      TickIsAfterDelta(st, r, delta, w);
      hide TickRoom;
    }
  }

  lemma SameRoomIds(st: System, s: Step)
    requires Sane(st) && Enabled(st, s) && !s.MatchReq?
    ensures Apply(st, s).rooms.Keys == st.rooms.Keys
  {
    hide Sane, OnReconnect, OnDisconnect, RunRoomTask, TickRoom, OnInput, FireTimer, Outcome, W.StartTick;
    match s {
      case Reconnect(c, pid, token) => ReconnectIds(st, c, pid, token);
      case InputReq(c, i) => InputIds(st, c, i);
      case Disconnect(c) => DisconnectIds(st, c);
      case WheelFire => FireIds(st);
      case RoomStep(r) => RoomStepIds(st, r);
      case RoomTick(r, delta, w) => RoomTickIds(st, r, delta, w);
      case _ =>
    }
  }

  lemma MatchNews(st: System, c: Conn)
    requires Sane(st)
    ensures OnMatch(st, c).inbox == st.inbox && OnMatch(st, c).results == st.results
    ensures forall rid | rid in OnMatch(st, c).rooms && rid !in st.rooms ::
      OnMatch(st, c).rooms[rid].pending == [Start] && !OnMatch(st, c).rooms[rid].ended
  {
    hide Sane, OnMatch, TryMatch;
    match SessionOf(st, c) {
      case None => MatchIdle(st, c);
      case Some(pid) =>
        if st.sessions[pid].place != InLobby || pid in st.queue.waiting {
          MatchIdle(st, c);
        } else {
          MatchGoes(st, c, pid);
          EnqueueRooms(st, pid);
          hide Enqueue;
          TryMatchNews(Enqueue(st, pid));
        }
    }
  }

  lemma TryMatchNews(st: System)
    requires Sane(st)
    ensures TryMatch(st).inbox == st.inbox && TryMatch(st).results == st.results
    ensures forall rid | rid in TryMatch(st).rooms && rid !in st.rooms ::
      TryMatch(st).rooms[rid].pending == [Start] && !TryMatch(st).rooms[rid].ended
  {
    hide W.WellFormed, Q.Ok, Q.PopPair, CancelMatchTimer;
  }

  lemma MatchNewRoom(st: System, c: Conn, rid: nat)
    requires Sane(st) && rid in OnMatch(st, c).rooms && rid !in st.rooms
    ensures OnMatch(st, c).rooms[rid].pending == [Start] && !OnMatch(st, c).rooms[rid].ended
  {
    hide Sane, OnMatch;
    MatchNews(st, c);
  }

  lemma StepLives(st: System, s: Step)
    requires Inv(st) && Sane(st) && Enabled(st, s) && AllLive(st)
    ensures AllLive(Apply(st, s))
  {
    hide Inv, Sane, Enabled, Apply, Lives, RoomOk;
    var st' := Apply(st, s);
    forall rid | rid in st'.rooms ensures Lives(st'.rooms[rid]) {
      if rid in st.rooms {
        var ch := StepBecomes(st, s, rid);
        GoodRoom(st, rid);
        ChangeLives(st.rooms[rid], ch);
      } else {
        NewRoomWaits(st, s, rid);
        StartingLives(st'.rooms[rid]);
      }
    }
  }

  lemma StartingLives(room: Room)
    requires room.pending == [Start] && !room.ended
    ensures Lives(room)
  {
  }

  // ---------------------------------------------------------------- news

  /** What the players were told stays told. */
  lemma TellsOn(st: System, s: Step, rid: nat, winner: nat)
    requires Inv(st) && Sane(st) && Enabled(st, s) && Tells(st.rooms, rid, winner)
    ensures Tells(Apply(st, s).rooms, rid, winner)
  {
    hide Inv, Sane, Enabled, Apply, RoomOk;
    var ch := StepBecomes(st, s, rid);
    GoodRoom(st, rid);
    ChangeTells(st.rooms[rid], ch);
  }

  lemma AllTellOn(st: System, s: Step)
    requires Inv(st) && Sane(st) && Enabled(st, s) && SameNews(st.rooms, st.inbox, st.results)
    ensures SameNews(Apply(st, s).rooms, st.inbox, st.results)
  {
    hide Inv, Sane, Enabled, Apply, Tells;
    forall i | 0 <= i < |st.inbox| ensures Tells(Apply(st, s).rooms, st.inbox[i].rid, st.inbox[i].winner) {
      TellsOn(st, s, st.inbox[i].rid, st.inbox[i].winner);
    }
    forall i | 0 <= i < |st.results| ensures Tells(Apply(st, s).rooms, st.results[i].rid, st.results[i].winner) {
      TellsOn(st, s, st.results[i].rid, st.results[i].winner);
    }
  }

  lemma MoreNews(rooms: map<nat, Room>, inbox: seq<RoomEnd>, results: seq<Result>, e: RoomEnd)
    requires SameNews(rooms, inbox, results) && Tells(rooms, e.rid, e.winner)
    ensures SameNews(rooms, inbox + [e], results)
  {
    hide Tells;
  }

  lemma LessNews(rooms: map<nat, Room>, inbox: seq<RoomEnd>, results: seq<Result>, more: seq<Result>)
    requires SameNews(rooms, inbox, results) && inbox != []
    requires forall i | 0 <= i < |more| :: more[i].rid == inbox[0].rid && more[i].winner == inbox[0].winner
    ensures SameNews(rooms, inbox[1..], results + more)
  {
    hide Tells;
    assert forall i | 0 <= i < |inbox[1..]| :: inbox[1..][i] == inbox[i + 1];
    assert Tells(rooms, inbox[0].rid, inbox[0].winner);
  }

  /** A room that runs a task tells the lobby of an end exactly as it tells its players. */
  lemma RoomStepNews(st: System, r: nat)
    requires Sane(st) && r in st.rooms && st.rooms[r].pending != []
    requires SameNews(RunRoomTask(st, r).rooms, st.inbox, st.results)
    ensures
      var st' := RunRoomTask(st, r);
      SameNews(st'.rooms, st'.inbox, st'.results)
  {
    hide Sane, RunRoomTask, AfterTask, AfterEnd, SameNews;
    TaskIsAfterTask(st, r);
    var room, st' := st.rooms[r], RunRoomTask(st, r);
    var t := room.pending[0];
    if t.ForceEnd? && !room.ended {
      EndTells(AfterTask(room), t.winner);
      MoreNews(st'.rooms, st.inbox, st.results, RoomEnd(r, t.winner));
    }
  }

  lemma RoomTickNews(st: System, r: nat, delta: bool, w: nat)
    requires Sane(st) && r in st.rooms
    requires SameNews(TickRoom(st, r, delta, w).rooms, st.inbox, st.results)
    ensures
      var st' := TickRoom(st, r, delta, w);
      SameNews(st'.rooms, st'.inbox, st'.results)
  {
    hide Sane, AfterDelta, AfterEnd, SameNews;
    var room, st' := st.rooms[r], TickRoom(st, r, delta, w);
    if !room.ended {
      TickIsAfterDelta(st, r, delta, w);
      hide TickRoom;
      if w != 0 {
        EndTells(AfterDelta(room, delta), w);
        MoreNews(st'.rooms, st.inbox, st.results, RoomEnd(r, w));
      }
    }
  }

  lemma LobbyTaskNews(st: System)
    requires Sane(st) && st.inbox != [] && SameNews(st.rooms, st.inbox, st.results)
    ensures
      var st' := RunLobbyTask(st);
      SameNews(st'.rooms, st'.inbox, st'.results)
  {
    var e := st.inbox[0];
    var more := Outcome(st.sessions, e.rid, e.winner);
    hide W.WellFormed, Q.Ok, Outcome, SameNews, BackToLobby;
    LessNews(st.rooms, st.inbox, st.results, more);
  }

  /** No other step tells the lobby or the records anything. */
  lemma NoNews(st: System, s: Step)
    requires Sane(st) && Enabled(st, s) && !s.RoomStep? && !s.RoomTick? && !s.LobbyTask?
    ensures Apply(st, s).inbox == st.inbox && Apply(st, s).results == st.results
  {
    hide Sane, OnReconnect, OnDisconnect, OnMatch, OnInput, FireTimer, W.StartTick;
    match s {
      case Reconnect(c, pid, token) => ReconnectIds(st, c, pid, token);
      case MatchReq(c) => MatchNews(st, c);
      case InputReq(c, i) => InputIds(st, c, i);
      case Disconnect(c) => DisconnectIds(st, c);
      case WheelFire => FireIds(st);
      case _ =>
    }
  }

  lemma StepNews(st: System, s: Step)
    requires Inv(st) && Sane(st) && Enabled(st, s) && SameNews(st.rooms, st.inbox, st.results)
    ensures
      var st' := Apply(st, s);
      SameNews(st'.rooms, st'.inbox, st'.results)
  {
    hide Inv, Sane, RunRoomTask, TickRoom, RunLobbyTask, SameNews, OnLogin, OnReconnect, OnMatch, OnInput, OnDisconnect,
      TickWheel, FireTimer;
    AllTellOn(st, s);
    match s {
      case RoomStep(r) => RoomStepNews(st, r);
      case RoomTick(r, delta, w) => RoomTickNews(st, r, delta, w);
      case LobbyTask => LobbyTaskNews(st);
      case _ => NoNews(st, s);
    }
  }

  // ---------------------------------------------------------------- runs

  lemma {:induction false} RunLives(st: System, steps: seq<Step>)
    requires Inv(st) && Sane(st) && ValidRun(st, steps) && AllLive(st) && SameNews(st.rooms, st.inbox, st.results)
    ensures
      var r := After(st, steps);
      AllLive(r) && SameNews(r.rooms, r.inbox, r.results)
    decreases |steps|
  {
    hide Inv, Sane, Apply, Enabled, AllLive, SameNews;
    if steps != [] {
      StepInv(st, steps[0]);
      StepLives(st, steps[0]);
      StepNews(st, steps[0]);
      RunLives(Apply(st, steps[0]), steps[1..]);
    }
  }

  lemma ReachableLives(st: System)
    requires Reachable(st)
    ensures AllLive(st) && SameNews(st.rooms, st.inbox, st.results)
  {
    var steps :| ValidRun(Initial(), steps) && After(Initial(), steps) == st;
    hide Inv, Sane, Initial, ValidRun, After, AllLive, SameNews;
    InitialInv();
    InvSane(Initial());
    NothingYet();
    RunLives(Initial(), steps);
  }

  lemma NothingYet()
    ensures AllLive(Initial()) && SameNews(Initial().rooms, Initial().inbox, Initial().results)
  {
    hide W.Add, W.WellFormed;
  }

  /** In every reachable state a room is waiting for its start, or ticking, or has ended; once it
      has ended its ticker has stopped or the task that stops it is under way, and no such task
      is ever under way before. */
  lemma RoomTicksFromStartToEnd(st: System, rid: nat)
    requires Reachable(st) && rid in st.rooms
    ensures
      var room := st.rooms[rid];
      && (room.ticking || room.ended || (room.pending != [] && room.pending[0] == Start))
      && (StopTicker in room.pending ==> room.ended)
      && (room.ended && room.ticking ==> StopTicker in room.pending)
  {
    hide Reachable;
    ReachableLives(st);
    assert Lives(st.rooms[rid]);
  }

  /** In every reachable state the winner of a recorded result, and of a notice on its way to
      the lobby, is the winner that was announced to the players of that room. */
  lemma RecordedWinnerWasAnnounced(st: System, i: nat)
    requires Reachable(st)
    ensures i < |st.results| ==> Tells(st.rooms, st.results[i].rid, st.results[i].winner)
    ensures i < |st.inbox| ==> Tells(st.rooms, st.inbox[i].rid, st.inbox[i].winner)
  {
    hide Reachable;
    ReachableLives(st);
    hide Tells;
  }
}
