/**
 How long a player waits for a match.  A request starts a timer of 300 ticks; the player
 leaves the queue into a room, by losing the connection, or when the first of its match
 timers goes off, and never waits beyond that.  A disconnect does not cancel the timer, so
 a player who comes back and asks again may be sent back early.
 */
module LobbyWaiting {
  import opened Prelude
  import opened Lobby
  import opened LobbyInv
  import opened LobbyTheorems
  import opened LobbyOutcomes
  import opened LobbyHistory
  import W = WheelModel
  import Q = QueueModel
  import M = SimModel

  /** The live match timers of a player and when they are due. */
  function AlarmsOf(timers: map<nat, W.Timer>, pid: nat): map<nat, nat> {
    map t | t in timers && timers[t].cb == W.MatchTimeout(pid) :: timers[t].expiry
  }

  function Alarms(st: System, pid: nat): map<nat, nat> {
    AlarmsOf(W.Flat(st.wheel), pid)
  }

  /** The player waits on, with the same timers. */
  ghost predicate WaitsOn(st: System, st': System, pid: nat) {
    pid in st'.queue.waiting && Alarms(st', pid) == Alarms(st, pid)
  }

  /** The player has left the queue: into a room, without a connection, or back into the
      lobby because one of its match timers, now due, went off. */
  ghost predicate Leaves(st: System, s: Step, st': System, pid: nat) {
    && pid !in st'.queue.waiting && pid in st.sessions && pid in st'.sessions
    && match s
       case MatchReq(_) => st'.sessions[pid].place == InRoom
       case Disconnect(c) =>
         st'.sessions[pid].place == InLobby && st'.sessions[pid].conn == None && st.sessions[pid].conn == Some(c)
       case WheelFire =>
         && st.wheel.firing != [] && st.wheel.firing[0] in Alarms(st, pid)
         && Alarms(st, pid)[st.wheel.firing[0]] == st.wheel.now
         && st'.sessions[pid] == st.sessions[pid].(place := InLobby) && st.sessions[pid].conn != None
       case _ => false
  }

  // ---------------------------------------------------------------- the timers of a step

  lemma OthersGo(timers: map<nat, W.Timer>, pid: nat, t: nat)
    requires t in timers ==> timers[t].cb != W.MatchTimeout(pid)
    ensures AlarmsOf(timers - {t}, pid) == AlarmsOf(timers, pid)
  {
  }

  lemma OthersCome(timers: map<nat, W.Timer>, pid: nat, t: nat, timer: W.Timer)
    requires t !in timers && timer.cb != W.MatchTimeout(pid)
    ensures AlarmsOf(timers[t := timer], pid) == AlarmsOf(timers, pid)
  {
  }

  lemma OneMore(timers: map<nat, W.Timer>, pid: nat, t: nat, e: nat)
    requires t !in timers
    ensures AlarmsOf(timers[t := W.Timer(e, W.MatchTimeout(pid))], pid) == AlarmsOf(timers, pid)[t := e]
    ensures t !in AlarmsOf(timers, pid)
  {
  }

  lemma AddedOther(w: W.Wheel, delayMs: nat, cb: W.Callback, pid: nat)
    requires W.Inv(w) && W.WellFormed(w) && cb != W.MatchTimeout(pid)
    ensures AlarmsOf(W.Flat(W.Add(w, delayMs, cb)), pid) == AlarmsOf(W.Flat(w), pid)
  {
    hide W.Inv, W.Flat, W.Add, W.WellFormed, AlarmsOf, W.EffectiveTicks;
    W.AddRefines(w, delayMs, cb);
    OthersCome(W.Flat(w), pid, w.nextId, W.Timer(w.now + W.EffectiveTicks(delayMs), cb));
  }

  lemma ReconnectAlarms(st: System, c: Conn, p: nat, token: nat, pid: nat)
    requires Inv(st) && Sane(st)
    ensures
      var r := OnReconnect(st, c, p, token);
      Alarms(r, pid) == Alarms(st, pid) && r.queue == st.queue && r.wheel.now == st.wheel.now
  {
    hide W.Inv, W.Flat, Q.Settled, SessionsOk, ConnsOk, RoomsOk, AgreementOk, EndsOk, ResultsOk, GoneOk,
      MatchTimersOk, W.WellFormed, Q.Ok, AlarmsOf, W.Cancel, Post;
    if Accepts(st, p, token) {
      var t := st.sessions[p].expireTimer;
      W.CancelRefines(st.wheel, t);
      OthersGo(W.Flat(st.wheel), pid, t);
    }
  }

  lemma DisconnectAlarms(st: System, c: Conn, pid: nat)
    requires Inv(st) && Sane(st)
    ensures
      var r := OnDisconnect(st, c);
      && Alarms(r, pid) == Alarms(st, pid) && r.wheel.now == st.wheel.now && r.wheel.firing == st.wheel.firing
      && (c in st.connOf ==> c !in r.connOf && st.connOf[c] in st.sessions)
      && (c in st.connOf && st.connOf[c] == pid ==>
        && pid in r.sessions && r.sessions[pid].conn == None && r.sessions[pid].token == st.sessions[pid].token
        && r.queue.waiting == st.queue.waiting - {pid}
        && (pid in st.queue.waiting ==> r.sessions[pid].place == InLobby))
      && (c !in st.connOf || st.connOf[c] != pid ==> (pid in st.queue.waiting <==> pid in r.queue.waiting))
  {
    if c in st.connOf {
      MappedConn(st, c);
      DropAlarms(st, c, pid);
    } else {
      hide Inv, Sane, Alarms;
    }
  }

  lemma QueuedMatches(st: System, p: nat)
    requires Inv(st) && p in st.sessions
    ensures st.sessions[p].place == Matching <==> p in st.queue.waiting
  {
    hide W.Inv, W.Flat, Q.Settled, ConnsOk, RoomsOk, AgreementOk, EndsOk, ResultsOk, GoneOk, MatchTimersOk, TimersOk;
  }

  lemma DropAlarms(st: System, c: Conn, pid: nat)
    requires Inv(st) && Sane(st) && c in st.connOf && st.connOf[c] in st.sessions
    ensures
      var r, p := OnDisconnect(st, c), st.connOf[c];
      && Alarms(r, pid) == Alarms(st, pid) && r.wheel.now == st.wheel.now && r.wheel.firing == st.wheel.firing
      && c !in r.connOf
      && p in r.sessions && r.sessions[p].conn == None && r.sessions[p].token == st.sessions[p].token
      && r.queue.waiting == st.queue.waiting - {p}
      && (p in st.queue.waiting ==> r.sessions[p].place == InLobby)
  {
    var p := st.connOf[c];
    QueuedMatches(st, p);
    InvWheel(st);
    hide Inv, Sane, W.Inv, W.Flat, AlarmsOf, W.Add, OnDisconnect;
    DropParts(st, c);
    NotThere(st.queue.waiting, p);
    AddedOther(st.wheel, SESSION_KEEP_MS, W.ExpireSession(p), pid);
    W.AddRefines(st.wheel, SESSION_KEEP_MS, W.ExpireSession(p));
  }

  lemma NotThere(xs: set<nat>, x: nat)
    ensures x !in xs ==> xs - {x} == xs
  {
  }

  lemma DropParts(st: System, c: Conn)
    requires Sane(st) && c in st.connOf && st.connOf[c] in st.sessions
    ensures
      var r, p := OnDisconnect(st, c), st.connOf[c];
      && r.wheel == W.Add(st.wheel, SESSION_KEEP_MS, W.ExpireSession(p))
      && r.connOf == st.connOf - {c}
      && p in r.sessions && r.sessions[p].conn == None && r.sessions[p].token == st.sessions[p].token
      && (if st.sessions[p].place == Matching then
          r.sessions[p].place == InLobby && r.queue.waiting == st.queue.waiting - {p}
        else r.queue == st.queue)
  {
    hide W.WellFormed, Q.Ok, W.Add, Post;
  }

  lemma TickAlarms(st: System, pid: nat)
    requires Inv(st) && Sane(st) && st.wheel.firing == []
    ensures Alarms(TickWheel(st), pid) == Alarms(st, pid)
    ensures TickWheel(st) == st.(wheel := TickWheel(st).wheel) && TickWheel(st).wheel.now == st.wheel.now + 1
  {
    InvWheel(st);
    hide Inv, Sane, W.Inv, W.Flat, W.StartTick, AlarmsOf;
    W.StartTickRefines(st.wheel);
  }

  // ---------------------------------------------------------------- timers going off

  /** Taking the next timer out, before its callback. */
  lemma FiredAlarms(st: System, pid: nat)
    requires Inv(st) && Sane(st) && st.wheel.firing != []
    ensures st.wheel.firing[0] in st.wheel.nodes
    ensures
      var id := st.wheel.firing[0];
      var n, r := st.wheel.nodes[id], W.FireNext(st.wheel);
      && r.now == st.wheel.now && W.Inv(r)
      && (n.canceled || n.cb != W.MatchTimeout(pid) ==> AlarmsOf(W.Flat(r), pid) == Alarms(st, pid))
      && (!n.canceled && n.cb == W.MatchTimeout(pid) ==> id in Alarms(st, pid) && Alarms(st, pid)[id] == st.wheel.now)
  {
    InvWheel(st);
    W.NextIsLive(st.wheel);
    hide Inv, W.Inv, W.Flat, W.WellFormed, Q.Ok, W.FireNext;
    W.FireNextRefines(st.wheel);
    var id := st.wheel.firing[0];
    if id !in W.Flat(st.wheel) || W.Flat(st.wheel)[id].cb != W.MatchTimeout(pid) {
      OthersGo(W.Flat(st.wheel), pid, id);
    }
  }

  lemma SweepAlarms(st: System, pid: nat)
    requires W.Inv(st.wheel) && Sane(st)
    ensures Alarms(OnSweep(st), pid) == Alarms(st, pid) && OnSweep(st).queue == st.queue
  {
    hide W.Inv, W.Flat, W.WellFormed, Q.Ok, AlarmsOf, W.Add;
    AddedOther(st.wheel, SWEEP_MS, W.Sweep, pid);
  }

  lemma TimeoutWaits(st: System, p: nat)
    requires Sane(st)
    ensures OnMatchTimeout(st, p).wheel == st.wheel
    ensures OnMatchTimeout(st, p).queue.waiting == st.queue.waiting - {p}
  {
    hide Sane;
    NotThere(st.queue.waiting, p);
  }

  lemma ExpireWaits(st: System, p: nat)
    requires Sane(st)
    ensures ExpireSession(st, p).wheel == st.wheel && ExpireSession(st, p).queue == st.queue
  {
    hide Sane, Survivor, Post;
  }

  /** A callback other than the player's own match timeout leaves the player waiting. */
  lemma CallbackWaits(st: System, cb: W.Callback, pid: nat)
    requires W.Inv(st.wheel) && Sane(st) && pid in st.queue.waiting && cb != W.MatchTimeout(pid)
    ensures WaitsOn(st, Callback(st, cb), pid)
  {
    hide Alarms, OnSweep, OnMatchTimeout, ExpireSession, Sane, W.Inv;
    var r := Callback(st, cb);
    match cb {
      case Sweep => SweepAlarms(st, pid);
      case MatchTimeout(p) =>
        TimeoutWaits(st, p);
        SameAlarms(st, r, pid);
      case ExpireSession(p) =>
        ExpireWaits(st, p);
        SameAlarms(st, r, pid);
    }
  }

  lemma TimeoutLeaves(st: System, pid: nat)
    requires Sane(st) && pid in st.queue.waiting && pid in st.sessions
    ensures
      var r := OnMatchTimeout(st, pid);
      && pid !in r.queue.waiting && pid in r.sessions
      && r.sessions[pid] == st.sessions[pid].(place := InLobby)
  {
    hide Sane;
  }

  lemma FireWaits(st: System, pid: nat)
    requires Inv(st) && Sane(st) && st.wheel.firing != [] && pid in st.queue.waiting
    ensures WaitsOn(st, FireTimer(st), pid) || Leaves(st, WheelFire, FireTimer(st), pid)
  {
    hide Inv, W.WellFormed, Q.Ok, W.Inv, W.FireNext, Callback, Alarms, FireTimer, AlarmsOf;
    FiredAlarms(st, pid);
    WaiterFacts(st, pid);
    var n := st.wheel.nodes[st.wheel.firing[0]];
    FiresBy(st);
    var st1 := st.(wheel := W.FireNext(st.wheel));
    AlarmsAre(st1, pid);
    if !n.canceled && n.cb == W.MatchTimeout(pid) {
      TimeoutLeaves(st1, pid);
      CallbackIsTimeout(st1, pid);
    } else if !n.canceled {
      CallbackWaits(st1, n.cb, pid);
    }
  }

  lemma AlarmsAre(st: System, pid: nat)
    ensures Alarms(st, pid) == AlarmsOf(W.Flat(st.wheel), pid)
  {
    hide AlarmsOf;
  }

  lemma FiresBy(st: System)
    requires Sane(st) && st.wheel.firing != [] && st.wheel.firing[0] in st.wheel.nodes
    ensures
      var n, st1 := st.wheel.nodes[st.wheel.firing[0]], st.(wheel := W.FireNext(st.wheel));
      Sane(st1) && FireTimer(st) == if n.canceled then st1 else Callback(st1, n.cb)
  {
    hide W.WellFormed, Q.Ok, W.FireNext, Callback;
  }

  lemma CallbackIsTimeout(st: System, pid: nat)
    requires Sane(st)
    ensures Callback(st, W.MatchTimeout(pid)) == OnMatchTimeout(st, pid)
  {
    hide Sane, OnMatchTimeout;
  }

  lemma WaiterFacts(st: System, pid: nat)
    requires Inv(st) && pid in st.queue.waiting
    ensures pid in st.sessions && st.sessions[pid].place == Matching && st.sessions[pid].conn != None
    ensures Q.Settled(st.queue) && st.queue.waiting == {pid}
  {
    hide W.Inv, W.Flat, ConnsOk, RoomsOk, AgreementOk, EndsOk, ResultsOk, GoneOk, MatchTimersOk, TimersOk;
    Q.SettledAtMostOne(st.queue);
  }

  // ---------------------------------------------------------------- requests

  /** A newcomer meets the one who waits, and both are in a room. */
  lemma NewcomerTakes(st: System, c: Conn, p: nat, pid: nat)
    requires Inv(st) && Sane(st) && pid in st.queue.waiting && SessionOf(st, c) == Some(p)
    requires st.sessions[p].place == InLobby && p !in st.queue.waiting
    ensures Leaves(st, MatchReq(c), OnMatch(st, c), pid)
  {
    hide Inv, Sane, Q.Settled, OnMatch, TryMatch, Enqueue;
    WaiterFacts(st, pid);
    MatchGoes(st, c, p);
    PairParts(st, p, pid);
  }

  lemma PairParts(st: System, p: nat, pid: nat)
    requires Sane(st) && Q.Settled(st.queue) && st.queue.waiting == {pid} && p != pid
    requires p in st.sessions && pid in st.sessions
    ensures
      var r := TryMatch(Enqueue(st, p));
      pid !in r.queue.waiting && pid in r.sessions && r.sessions[pid].place == InRoom
  {
    hide W.WellFormed, Q.Ok, Q.Settled, W.Add, Q.PopPair, Q.Push, MakeRoom;
    assert pid in st.queue.waiting;
    Q.PushThenPop(st.queue, p);
    var st1 := Enqueue(st, p);
    var q := Q.PopPair(st1.queue).0;
    EntersRoom(st1.(queue := q), pid, p);
  }

  lemma EntersRoom(st: System, a: nat, b: nat)
    requires Sane(st) && a in st.sessions && b in st.sessions
    ensures MakeRoom(st, a, b).queue == st.queue && a in MakeRoom(st, a, b).sessions
    ensures MakeRoom(st, a, b).sessions[a].place == InRoom
  {
    hide Sane, CancelMatchTimer;
  }

  lemma RequestWaits(st: System, c: Conn, pid: nat)
    requires Inv(st) && Sane(st) && pid in st.queue.waiting
    ensures WaitsOn(st, OnMatch(st, c), pid) || Leaves(st, MatchReq(c), OnMatch(st, c), pid)
  {
    hide Inv, Sane, OnMatch, Leaves, Alarms;
    match SessionOf(st, c) {
      case None => MatchIdle(st, c);
      case Some(p) =>
        if st.sessions[p].place != InLobby || p in st.queue.waiting {
          MatchIdle(st, c);
        } else {
          NewcomerTakes(st, c, p, pid);
        }
    }
  }

  /** Of a player alone in asking: it waits, with one more timer, due in 300 ticks. */
  lemma RequestStarts(st: System, c: Conn, pid: nat)
    requires Inv(st) && Sane(st) && SessionOf(st, c) == Some(pid) && st.sessions[pid].place == InLobby
    requires st.queue.waiting == {}
    ensures
      var r := OnMatch(st, c);
      && r.queue.waiting == {pid} && r.wheel.now == st.wheel.now && st.wheel.nextId !in Alarms(st, pid)
      && Alarms(r, pid) == Alarms(st, pid)[st.wheel.nextId := st.wheel.now + 300]
  {
    hide Inv, W.WellFormed, Q.Ok, W.Inv, W.Flat, Q.Settled, W.Add, OnMatch, TryMatch, Enqueue, AlarmsOf, Alarms;
    MatchGoes(st, c, pid);
    InvWheel(st);
    QueueSettled(st);
    LonelyParts(st, pid);
    AddedOwn(st.wheel, pid);
    AlarmsAre(st, pid);
    AlarmsAre(OnMatch(st, c), pid);
  }

  lemma AddedOwn(w: W.Wheel, pid: nat)
    requires W.Inv(w) && W.WellFormed(w)
    ensures
      var r := W.Add(w, MATCH_TIMEOUT_MS, W.MatchTimeout(pid));
      && r.now == w.now && w.nextId !in AlarmsOf(W.Flat(w), pid)
      && AlarmsOf(W.Flat(r), pid) == AlarmsOf(W.Flat(w), pid)[w.nextId := w.now + 300]
  {
    hide W.Inv, W.Flat, W.Add, W.WellFormed, AlarmsOf, W.EffectiveTicks;
    MatchTicks();
    W.AddRefines(w, MATCH_TIMEOUT_MS, W.MatchTimeout(pid));
    OneMore(W.Flat(w), pid, w.nextId, w.now + 300);
  }

  lemma MatchTicks()
    ensures W.EffectiveTicks(MATCH_TIMEOUT_MS) == 300
  {
  }

  lemma LonelyParts(st: System, pid: nat)
    requires Sane(st) && Q.Settled(st.queue) && st.queue.waiting == {} && pid in st.sessions
    ensures
      var r := TryMatch(Enqueue(st, pid));
      r.queue.waiting == {pid} && r.wheel == W.Add(st.wheel, MATCH_TIMEOUT_MS, W.MatchTimeout(pid))
  {
    hide W.WellFormed, Q.Ok, Q.Settled, W.Add, Q.PopPair, Q.Push, CancelMatchTimer, MakeRoom;
    Q.PushThenPop(st.queue, pid);
  }

  lemma QueueSettled(st: System)
    requires Inv(st)
    ensures Q.Settled(st.queue)
  {
  }

  // ---------------------------------------------------------------- any step

  /** The steps that touch neither the queue nor the wheel. */
  lemma QuietStep(st: System, s: Step)
    requires Sane(st) && Enabled(st, s) && (s.Login? || s.InputReq? || s.LobbyTask? || s.RoomStep? || s.RoomTick?)
    ensures Apply(st, s).queue == st.queue && Apply(st, s).wheel == st.wheel
  {
    hide Sane, RunRoomTask, TickRoom, AfterTask, AfterEnd, Outcome;
    match s {
      case RoomStep(rid) => TaskIsAfterTask(st, rid);
      case RoomTick(rid, delta, w) => QuietTick(st, rid, delta, w);
      case _ =>
    }
  }

  lemma QuietTick(st: System, rid: nat, delta: bool, w: nat)
    requires Sane(st) && rid in st.rooms
    ensures TickRoom(st, rid, delta, w).queue == st.queue && TickRoom(st, rid, delta, w).wheel == st.wheel
  {
    hide Sane;
  }

  /**
   A waiting player waits on with the same timers, or leaves the queue in one of three ways:
   matched into a room, disconnected, or sent back to the lobby by a timer due now.
   */
  lemma WaitStep(st: System, s: Step, pid: nat)
    requires Inv(st) && Sane(st) && Enabled(st, s) && pid in st.queue.waiting
    ensures WaitsOn(st, Apply(st, s), pid) || Leaves(st, s, Apply(st, s), pid)
  {
    hide Inv, Sane, OnReconnect, OnMatch, OnDisconnect, TickWheel, FireTimer, Alarms;
    match s {
      case Reconnect(c, p, token) => ReconnectAlarms(st, c, p, token, pid);
      case MatchReq(c) => RequestWaits(st, c, pid);
      case Disconnect(c) =>
        WaiterFacts(st, pid);
        DisconnectAlarms(st, c, pid);
        if c in st.connOf {
          MappedConn(st, c);
        }
      case WheelTick => TickAlarms(st, pid);
      case WheelFire => FireWaits(st, pid);
      case _ =>
        QuietStep(st, s);
        SameAlarms(st, Apply(st, s), pid);
    }
  }

  lemma SameAlarms(st: System, st': System, pid: nat)
    requires st'.wheel == st.wheel
    ensures Alarms(st', pid) == Alarms(st, pid)
  {
  }

  // ---------------------------------------------------------------- runs

  /** The player waits in every state of the run. */
  ghost predicate WaitsThrough(st: System, steps: seq<Step>, pid: nat)
    requires Sane(st) && ValidRun(st, steps)
    decreases |steps|
  {
    pid in st.queue.waiting && (steps == [] || WaitsThrough(Apply(st, steps[0]), steps[1..], pid))
  }

  lemma {:induction false} RunWaits(st: System, steps: seq<Step>, pid: nat)
    requires Inv(st) && Sane(st) && ValidRun(st, steps) && WaitsThrough(st, steps, pid)
    ensures Inv(After(st, steps)) && WaitsOn(st, After(st, steps), pid)
    decreases |steps|
  {
    hide Inv, Sane, Apply, Alarms, Enabled;
    if steps != [] {
      StepInv(st, steps[0]);
      WaitStep(st, steps[0], pid);
      RunWaits(Apply(st, steps[0]), steps[1..], pid);
    }
  }

  lemma NoAlarmOverdue(st: System, pid: nat)
    requires Inv(st)
    ensures forall t | t in Alarms(st, pid) ::
      st.wheel.now <= Alarms(st, pid)[t] && (st.wheel.firing == [] ==> st.wheel.now < Alarms(st, pid)[t])
  {
    InvWheel(st);
    hide Inv, W.Inv, W.Flat;
    W.NothingOverdue(st.wheel);
  }

  /** The player asked to be matched while nobody was waiting. */
  ghost predicate AsksAlone(st: System, c: Conn, pid: nat) {
    SessionOf(st, c) == Some(pid) && st.sessions[pid].place == InLobby && st.queue.waiting == {}
  }

  /**
   Nobody waits beyond 300 ticks.  A player asks alone, in any reachable state; for as long
   as it waits, at most 300 ticks go by, and fewer whenever the timers of a tick have run.
   */
  lemma NobodyWaitsBeyond300(st: System, c: Conn, pid: nat, steps: seq<Step>)
    requires Reachable(st) && Sane(st) && AsksAlone(st, c, pid)
    requires
      var st1 := Apply(st, MatchReq(c));
      ValidRun(st1, steps) && WaitsThrough(st1, steps, pid)
    ensures
      var r := After(Apply(st, MatchReq(c)), steps);
      && r.wheel.now <= st.wheel.now + 300
      && (r.wheel.firing == [] ==> r.wheel.now < st.wheel.now + 300)
  {
    hide Reachable, Inv, Sane, OnMatch, ValidRun, After, WaitsThrough, Alarms;
    ReachableInv(st);
    RequestStarts(st, c, pid);
    StepInv(st, MatchReq(c));
    var st1 := Apply(st, MatchReq(c));
    RunWaits(st1, steps, pid);
    NoAlarmOverdue(After(st1, steps), pid);
    hide Apply;
    assert st.wheel.nextId in Alarms(st1, pid);
  }

  /**
   How waiting ends.  When a player who asked alone leaves the queue, it is in a room, or has
   lost its connection, or is back in the lobby with its connection because a timer went off;
   the timer is then the first of its match timers to be due.  That is after exactly 300
   ticks if and only if no match timer left over from an earlier request was due sooner.
   */
  lemma WaitingEnds(st: System, c: Conn, pid: nat, steps: seq<Step>, s: Step)
    requires Reachable(st) && Sane(st) && AsksAlone(st, c, pid)
    requires
      var st1 := Apply(st, MatchReq(c));
      ValidRun(st1, steps) && WaitsThrough(st1, steps, pid) && Enabled(After(st1, steps), s)
    requires pid !in Apply(After(Apply(st, MatchReq(c)), steps), s).queue.waiting
    ensures
      var r := After(Apply(st, MatchReq(c)), steps);
      && Leaves(r, s, Apply(r, s), pid)
      && (s == WheelFire ==>
        && r.wheel.now <= st.wheel.now + 300
        && (forall t | t in Alarms(st, pid) :: r.wheel.now <= Alarms(st, pid)[t])
        && (r.wheel.now == st.wheel.now + 300 <==>
          forall t | t in Alarms(st, pid) :: st.wheel.now + 300 <= Alarms(st, pid)[t]))
  {
    hide Reachable, Inv, Sane, OnMatch, ValidRun, After, WaitsThrough, Alarms;
    ReachableInv(st);
    RequestStarts(st, c, pid);
    StepInv(st, MatchReq(c));
    hide Enabled;
    var st1 := Apply(st, MatchReq(c));
    RunWaits(st1, steps, pid);
    var r := After(st1, steps);
    InvSane(r);
    NoAlarmOverdue(r, pid);
    WaitStep(r, s, pid);
    hide Apply;
    if s == WheelFire {
      var alarms, own := Alarms(st, pid), st.wheel.nextId;
      assert Alarms(r, pid) == alarms[own := st.wheel.now + 300];
      forall t | t in alarms ensures r.wheel.now <= alarms[t] {
        assert t in Alarms(r, pid) && Alarms(r, pid)[t] == alarms[t];
      }
      assert own in Alarms(r, pid);
    }
  }

  // ---------------------------------------------------------------- a timer left over

  lemma ReturnsFor(st: System, c: Conn, pid: nat)
    requires Inv(st) && Sane(st) && pid in st.sessions && st.sessions[pid].conn == None
    ensures
      var r := OnReconnect(st, c, pid, st.sessions[pid].token);
      pid in r.sessions && r.sessions[pid].place == st.sessions[pid].place && SessionOf(r, c) == Some(pid)
  {
    hide Inv, Sane, OnReconnect;
    ReconnectParts(st, c, pid, st.sessions[pid].token);
  }

  /**
   Sent back early.  From every reachable state in which a player waits, between ticks: if it
   loses its connection, comes back over `c2` a tick later and asks again, the old timer is
   still running, so the player's new wait ends before 300 ticks have gone by.
   */
  lemma OldTimerCutsShort(st: System, c: Conn, c2: Conn, pid: nat, t: nat)
    requires Reachable(st) && Sane(st) && st.wheel.firing == []
    requires c in st.connOf && st.connOf[c] == pid && pid in st.queue.waiting
    requires t in Alarms(st, pid) && Alarms(st, pid)[t] <= st.wheel.now + 300
    ensures pid in st.sessions
    ensures
      var steps := [Disconnect(c), WheelTick, Reconnect(c2, pid, st.sessions[pid].token)];
      && ValidRun(st, steps)
      && var r := After(st, steps);
         && AsksAlone(r, c2, pid)
         && t in Alarms(r, pid) && Alarms(r, pid)[t] < r.wheel.now + 300
  {
    hide Reachable, Inv, Sane, OnReconnect, OnDisconnect, TickWheel, Alarms, ValidRun, After;
    ReachableInv(st);
    WaiterFacts(st, pid);
    var token := st.sessions[pid].token;
    DisconnectAlarms(st, c, pid);
    StepInv(st, Disconnect(c));
    var st1 := Apply(st, Disconnect(c));
    TickAlarms(st1, pid);
    StepInv(st1, WheelTick);
    var st2 := Apply(st1, WheelTick);
    ReconnectAlarms(st2, c2, pid, token, pid);
    ReturnsFor(st2, c2, pid);
    StepInv(st2, Reconnect(c2, pid, token));
    hide Apply;
    ThreeSteps(st, Disconnect(c), WheelTick, Reconnect(c2, pid, token));
  }

  lemma ThreeSteps(st: System, a: Step, b: Step, c: Step)
    requires Sane(st) && Enabled(st, a) && Enabled(Apply(st, a), b) && Enabled(Apply(Apply(st, a), b), c)
    ensures ValidRun(st, [a, b, c]) && After(st, [a, b, c]) == Apply(Apply(Apply(st, a), b), c)
  {
    hide Sane, Apply, Enabled, ValidRun, After;
    var st1, st2 := Apply(st, a), Apply(Apply(st, a), b);
    RunOne(st, a);
    RunOne(st1, b);
    RunOne(st2, c);
    RunConcat(st, [a], [b]);
    RunConcat(st, [a] + [b], [c]);
    assert [a] + [b] + [c] == [a, b, c];
  }

  /** Such a state is reachable: one login and one request. */
  lemma OneWaits() returns (steps: seq<Step>)
    ensures ValidRun(Initial(), steps)
    ensures
      var st := After(Initial(), steps);
      && st.wheel.firing == [] && 1 in st.connOf && st.connOf[1] == 1 && 1 in st.queue.waiting
      && exists t :: t in Alarms(st, 1) && Alarms(st, 1)[t] <= st.wheel.now + 300
  {
    var st1 := OneLoggedIn();
    hide Inv, Sane, OnMatch, ValidRun, After, Initial, Alarms;
    RequestStarts(st1, 1, 1);
    RequestQuiet(st1, 1);
    steps := RunMore(Initial(), [Login(1, "a", 7)], MatchReq(1));
    assert st1.wheel.nextId in Alarms(OnMatch(st1, 1), 1);
  }

  lemma OneLoggedIn() returns (st: System)
    ensures ValidRun(Initial(), [Login(1, "a", 7)]) && After(Initial(), [Login(1, "a", 7)]) == st
    ensures Inv(st) && Sane(st) && st.wheel.firing == [] && 1 in st.connOf && st.connOf[1] == 1
    ensures AsksAlone(st, 1, 1)
  {
    W.InitInv();
    W.AddRefines(W.Init(), SWEEP_MS, W.Sweep);
    InitialInv();
    hide Inv, W.Add, W.WellFormed, ValidRun, After;
    st := OnLogin(Initial(), 1, "a", 7);
    StepInv(Initial(), Login(1, "a", 7));
    RunOne(Initial(), Login(1, "a", 7));
  }

  /** Asking fires nothing and moves no connection. */
  lemma RequestQuiet(st: System, c: Conn)
    requires Inv(st) && Sane(st)
    ensures OnMatch(st, c).connOf == st.connOf
    ensures st.queue.waiting == {} ==> OnMatch(st, c).wheel.firing == st.wheel.firing
  {
    hide Sane, OnMatch;
    MatchFaces(st, c);
    if st.queue.waiting == {} && SessionOf(st, c).Some? {
      var pid := SessionOf(st, c).value;
      if st.sessions[pid].place == InLobby {
        MatchGoes(st, c, pid);
        InvWheel(st);
        QueueSettled(st);
        hide Inv, W.Inv, W.Add, TryMatch, Enqueue;
        LonelyParts(st, pid);
        W.AddRefines(st.wheel, MATCH_TIMEOUT_MS, W.MatchTimeout(pid));
      } else {
        MatchIdle(st, c);
      }
    } else if SessionOf(st, c).None? {
      MatchIdle(st, c);
    }
  }
}
