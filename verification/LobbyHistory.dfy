/**
 Who may come back.  A history of logins, granted reconnects and disconnects is kept from
 the steps alone; the sessions agree with it in every run, and a reconnect is granted exactly
 when the history says so.
 */
module LobbyHistory {
  import opened Prelude
  import opened Lobby
  import opened LobbyInv
  import opened LobbyTheorems
  import W = WheelModel
  import Q = QueueModel
  import M = SimModel

  /** `logins[pid - 1]` is the step that admitted player `pid`, `last[pid]` the latest login,
      granted reconnect or disconnect of that player, `holder` who speaks over a connection. */
  datatype History = History(logins: seq<Step>, last: map<nat, Step>, holder: map<Conn, nat>)

  const Nothing: History := History([], map[], map[])

  /** The player was admitted with this token, has not expired, and was disconnected last. */
  predicate MayReturn(h: History, expired: set<nat>, pid: nat, token: nat) {
    && 1 <= pid <= |h.logins| && h.logins[pid - 1].Login? && h.logins[pid - 1].token == token
    && pid !in expired
    && pid in h.last && h.last[pid].Disconnect?
  }

  function Note(h: History, s: Step, expired: set<nat>): History {
    match s
    case Login(c, _, _) =>
      var pid := |h.logins| + 1;
      History(h.logins + [s], h.last[pid := s], h.holder[c := pid])
    case Reconnect(c, pid, token) =>
      if MayReturn(h, expired, pid, token) then h.(last := h.last[pid := s], holder := h.holder[c := pid]) else h
    case Disconnect(c) =>
      if c in h.holder then h.(last := h.last[h.holder[c] := s], holder := h.holder - {c}) else h
    case _ => h
  }

  ghost function Noted(st: System, h: History, steps: seq<Step>): History
    requires Sane(st) && ValidRun(st, steps)
    decreases |steps|
  {
    if steps == [] then h
    else Noted(Apply(st, steps[0]), Note(h, steps[0], st.gone.Keys), steps[1..])
  }

  /** The connection a login or a reconnect comes over; a disconnect has none. */
  function Arrival(s: Step): (c: Option<Conn>) {
    match s
    case Login(c, _, _) => Some(c)
    case Reconnect(c, _, _) => Some(c)
    case _ => None
  }

  predicate Moves(s: Step) {
    s.Login? || s.Reconnect? || s.Disconnect?
  }

  /** The session is the one its login asked for, and has the connection the player last
      came over; it has none exactly when the player was disconnected last. */
  ghost predicate Remembered(s: Session, pid: nat, h: History) {
    && 1 <= pid <= |h.logins| && h.logins[pid - 1].Login?
    && s.token == h.logins[pid - 1].token && s.account == h.logins[pid - 1].account
    && pid in h.last && Moves(h.last[pid]) && s.conn == Arrival(h.last[pid])
  }

  ghost predicate Follows(st: System, h: History) {
    && st.connOf == h.holder && st.nextPlayer == |h.logins| + 1
    && (forall pid | pid in st.sessions :: Remembered(st.sessions[pid], pid, h))
  }

  // ---------------------------------------------------------------- the other steps

  /** Connections, tokens and accounts stay as they are. */
  ghost predicate SameFaces(st: System, st': System) {
    && st'.connOf == st.connOf && st'.nextPlayer == st.nextPlayer
    && (forall pid | pid in st'.sessions :: pid in st.sessions && SameFace(st.sessions[pid], st'.sessions[pid]))
  }

  predicate SameFace(s: Session, s': Session) {
    s'.token == s.token && s'.account == s.account && s'.conn == s.conn
  }

  lemma SameFacesFollow(st: System, st': System, h: History)
    requires Follows(st, h) && SameFaces(st, st')
    ensures Follows(st', h)
  {
  }

  lemma MatchIdle(st: System, c: Conn)
    requires Sane(st)
    requires SessionOf(st, c).Some? ==>
      var pid := SessionOf(st, c).value; st.sessions[pid].place != InLobby || pid in st.queue.waiting
    ensures OnMatch(st, c) == st
  {
    hide Sane, Enqueue, TryMatch;
  }

  lemma MatchGoes(st: System, c: Conn, pid: nat)
    requires Sane(st) && SessionOf(st, c) == Some(pid)
    requires st.sessions[pid].place == InLobby && pid !in st.queue.waiting
    ensures OnMatch(st, c) == TryMatch(Enqueue(st, pid))
  {
    hide Sane, Enqueue, TryMatch;
  }

  lemma EnqueueFaces(st: System, pid: nat)
    requires Sane(st) && pid in st.sessions
    ensures SameFaces(st, Enqueue(st, pid))
  {
    hide W.Add, W.WellFormed, Q.Ok, Q.Push;
  }

  lemma TryMatchFaces(st: System)
    requires Sane(st)
    ensures SameFaces(st, TryMatch(st))
  {
    hide Q.PopPair, W.WellFormed, Q.Ok, CancelMatchTimer;
  }

  lemma MatchFaces(st: System, c: Conn)
    requires Sane(st)
    ensures SameFaces(st, OnMatch(st, c))
  {
    hide Sane, OnMatch, Enqueue, TryMatch;
    match SessionOf(st, c) {
      case None => MatchIdle(st, c);
      case Some(pid) =>
        if st.sessions[pid].place != InLobby || pid in st.queue.waiting {
          MatchIdle(st, c);
        } else {
          EnqueueFaces(st, pid);
          TryMatchFaces(Enqueue(st, pid));
          MatchGoes(st, c, pid);
        }
    }
  }

  lemma InputFaces(st: System, c: Conn, input: M.Input)
    requires Sane(st)
    ensures SameFaces(st, OnInput(st, c, input))
  {
    hide Sane;
  }

  lemma RoomFaces(st: System, rid: nat)
    requires Sane(st) && rid in st.rooms && st.rooms[rid].pending != []
    ensures SameFaces(st, RunRoomTask(st, rid))
  {
    hide Sane, RunRoomTask, AfterTask, AfterEnd;
    TaskIsAfterTask(st, rid);
  }

  lemma TickFaces(st: System, rid: nat, delta: bool, w: nat)
    requires Sane(st) && rid in st.rooms
    ensures SameFaces(st, TickRoom(st, rid, delta, w))
  {
    hide Sane;
  }

  lemma LobbyTaskFaces(st: System)
    requires Sane(st) && st.inbox != []
    ensures SameFaces(st, RunLobbyTask(st))
  {
    hide W.WellFormed, Q.Ok, Outcome;
  }

  lemma TimeoutFaces(st: System, pid: nat)
    requires Sane(st)
    ensures SameFaces(st, OnMatchTimeout(st, pid))
  {
    hide Sane, Q.Remove;
  }

  lemma ExpireFaces(st: System, pid: nat)
    requires Sane(st)
    ensures SameFaces(st, ExpireSession(st, pid))
  {
    hide Sane, Survivor, Post;
  }

  lemma SweepFaces(st: System)
    requires Sane(st)
    ensures SameFaces(st, OnSweep(st))
  {
    hide W.WellFormed, Q.Ok, W.Add;
  }

  lemma CallbackFaces(st: System, cb: W.Callback)
    requires Sane(st)
    ensures SameFaces(st, Callback(st, cb))
  {
    hide Sane, OnMatchTimeout, ExpireSession, OnSweep;
    match cb {
      case MatchTimeout(pid) => TimeoutFaces(st, pid);
      case ExpireSession(pid) => ExpireFaces(st, pid);
      case Sweep => SweepFaces(st);
    }
  }

  lemma FireFaces(st: System)
    requires Sane(st) && st.wheel.firing != []
    ensures SameFaces(st, FireTimer(st))
  {
    assert st.wheel.firing[0] in st.wheel.firing;
    hide W.FireNext, W.WellFormed, Q.Ok, Callback;
    var n := st.wheel.nodes[st.wheel.firing[0]];
    if !n.canceled {
      CallbackFaces(st.(wheel := W.FireNext(st.wheel)), n.cb);
    }
  }

  /** Only logins, reconnects and disconnects change a connection, a token or an account. */
  lemma OtherStepFaces(st: System, s: Step)
    requires Sane(st) && Enabled(st, s) && !s.Login? && !s.Reconnect? && !s.Disconnect?
    ensures SameFaces(st, Apply(st, s))
  {
    hide Sane, OnMatch, RunRoomTask, W.StartTick, TickRoom, OnInput, FireTimer, RunLobbyTask;
    match s {
      case MatchReq(c) => MatchFaces(st, c);
      case InputReq(c, input) => InputFaces(st, c, input);
      case WheelFire => FireFaces(st);
      case LobbyTask => LobbyTaskFaces(st);
      case RoomStep(rid) => RoomFaces(st, rid);
      case RoomTick(rid, delta, w) => TickFaces(st, rid, delta, w);
      case _ =>
    }
  }

  // ---------------------------------------------------------------- comings and goings

  /** What the history knows of who may return is what the lobby knows. */
  lemma MayReturnIff(st: System, h: History, pid: nat, token: nat)
    requires Inv(st) && Follows(st, h)
    ensures MayReturn(h, st.gone.Keys, pid, token)
       <==> pid in st.sessions && st.sessions[pid].token == token && st.sessions[pid].conn == None
  {
    hide W.Inv, W.Flat, Q.Settled, ConnsOk, TimersOk, RoomsOk, AgreementOk, EndsOk, ResultsOk, MatchTimersOk;
  }

  lemma LoginFollows(st: System, h: History, s: Step)
    requires Inv(st) && Sane(st) && Follows(st, h) && s.Login?
    ensures Follows(Apply(st, s), Note(h, s, st.gone.Keys))
  {
    hide W.Inv, W.Flat, Q.Settled, ConnsOk, TimersOk, RoomsOk, AgreementOk, EndsOk, ResultsOk, MatchTimersOk, GoneOk,
      W.WellFormed, Q.Ok;
  }

  /** What a reconnect does to the sessions and the connections. */
  lemma ReconnectParts(st: System, c: Conn, pid: nat, token: nat)
    requires Sane(st)
    ensures
      var r := OnReconnect(st, c, pid, token);
      if pid in st.sessions && st.sessions[pid].token == token && st.sessions[pid].conn == None then
        && r.sessions == st.sessions[pid := st.sessions[pid].(conn := Some(c), expireTimer := 0)]
        && r.connOf == st.connOf[c := pid] && r.nextPlayer == st.nextPlayer
      else r == st
  {
    hide W.WellFormed, Q.Ok, W.Cancel, Post;
  }

  lemma ReconnectFollows(st: System, h: History, s: Step)
    requires Inv(st) && Sane(st) && Follows(st, h) && s.Reconnect?
    ensures Follows(Apply(st, s), Note(h, s, st.gone.Keys))
  {
    MayReturnIff(st, h, s.pid, s.token);
    ReconnectParts(st, s.c, s.pid, s.token);
    hide Inv, Sane, MayReturn, OnReconnect, Accepts;
    var r := OnReconnect(st, s.c, s.pid, s.token);
    assert r == Apply(st, s);
    hide Apply;
    if MayReturn(h, st.gone.Keys, s.pid, s.token) {
      BoundFollows(st, r, h, s);
    }
  }

  lemma BoundFollows(st: System, r: System, h: History, s: Step)
    requires Follows(st, h) && s.Reconnect? && s.pid in st.sessions && MayReturn(h, st.gone.Keys, s.pid, s.token)
    requires r.sessions == st.sessions[s.pid := st.sessions[s.pid].(conn := Some(s.c), expireTimer := 0)]
    requires r.connOf == st.connOf[s.c := s.pid] && r.nextPlayer == st.nextPlayer
    ensures Follows(r, Note(h, s, st.gone.Keys))
  {
    hide MayReturn;
  }

  lemma DisconnectFollows(st: System, h: History, s: Step)
    requires Inv(st) && Sane(st) && Follows(st, h) && s.Disconnect?
    ensures Follows(Apply(st, s), Note(h, s, st.gone.Keys))
  {
    hide W.Inv, W.Flat, Q.Settled, TimersOk, RoomsOk, AgreementOk, EndsOk, ResultsOk, MatchTimersOk, GoneOk, SessionsOk,
      W.WellFormed, Q.Ok, MayReturn, Post, W.Add, Q.Remove;
  }

  lemma StepFollows(st: System, h: History, s: Step)
    requires Inv(st) && Sane(st) && Enabled(st, s) && Follows(st, h)
    ensures Follows(Apply(st, s), Note(h, s, st.gone.Keys))
  {
    hide Inv, Sane, Follows, SameFaces;
    match s {
      case Login(_, _, _) => LoginFollows(st, h, s);
      case Reconnect(_, _, _) => ReconnectFollows(st, h, s);
      case Disconnect(_) => DisconnectFollows(st, h, s);
      case _ =>
        OtherStepFaces(st, s);
        hide Apply;
        SameFacesFollow(st, Apply(st, s), h);
    }
  }

  lemma {:induction false} RunFollows(st: System, h: History, steps: seq<Step>)
    requires Inv(st) && Sane(st) && ValidRun(st, steps) && Follows(st, h)
    ensures Inv(After(st, steps)) && Follows(After(st, steps), Noted(st, h, steps))
    decreases |steps|
  {
    hide Inv, Sane, Apply, Follows, Note, Enabled;
    if steps != [] {
      StepInv(st, steps[0]);
      StepFollows(st, h, steps[0]);
      RunFollows(Apply(st, steps[0]), Note(h, steps[0], st.gone.Keys), steps[1..]);
    }
  }

  // ---------------------------------------------------------------- the law

  /** After any run from the start the sessions are what the history says. */
  lemma SessionsFollowHistory(steps: seq<Step>)
    requires ValidRun(Initial(), steps)
    ensures Follows(After(Initial(), steps), Noted(Initial(), Nothing, steps))
    ensures Inv(After(Initial(), steps))
  {
    InitialInv();
    hide Inv, Sane, W.Add, Apply, Enabled;
    RunFollows(Initial(), Nothing, steps);
  }

  /**
   After any run from the start, a reconnect for `pid` binds the session to the connection if
   and only if its token is that of the login step that created `pid`, the session has not
   expired, and the latest login, reconnect or disconnect of `pid` is a disconnect.  Any
   other reconnect leaves the state as it is.
   */
  lemma ReconnectGrantedIff(steps: seq<Step>, c: Conn, pid: nat, token: nat)
    requires ValidRun(Initial(), steps)
    ensures
      var st := After(Initial(), steps);
      var st' := Apply(st, Reconnect(c, pid, token));
      if MayReturn(Noted(Initial(), Nothing, steps), st.gone.Keys, pid, token) then
        && pid in st.sessions && st.sessions[pid].conn == None
        && pid in st'.sessions && st'.sessions[pid] == st.sessions[pid].(conn := Some(c), expireTimer := 0)
        && st'.connOf == st.connOf[c := pid]
        && (forall p | p != pid :: p in st'.sessions <==> p in st.sessions)
        && (forall p | p in st.sessions && p != pid :: st'.sessions[p] == st.sessions[p])
      else st' == st
  {
    hide Inv, Sane, Follows, OnReconnect, Noted, After, ValidRun, Initial, MayReturn;
    SessionsFollowHistory(steps);
    var st := After(Initial(), steps);
    MayReturnIff(st, Noted(Initial(), Nothing, steps), pid, token);
    ReconnectParts(st, c, pid, token);
    assert Apply(st, Reconnect(c, pid, token)) == OnReconnect(st, c, pid, token);
    hide Apply;
  }
}
