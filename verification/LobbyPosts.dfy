/**
 What steps do to a room.  Its tasks are run in the order they were posted, so an input of a
 player in a room is the task the room runs next once it has run those that were ahead of it,
 whatever else happens meanwhile.
 */
module LobbyPosts {
  import opened Prelude
  import opened Lobby
  import opened LobbyInv
  import opened LobbyTheorems
  import opened LobbyHistory
  import W = WheelModel
  import Q = QueueModel
  import M = SimModel

  /** All a step can do to a room: nothing, post it a task, have it run the next one, tick. */
  datatype Change = Untouched | Posted(t: RoomTask) | Ran | TickedOnce(delta: bool, winner: nat)

  predicate Applies(room: Room, ch: Change) {
    match ch
    case Untouched => true
    case Posted(t) => t != Start && t != StopTicker
    case Ran => room.pending != []
    case TickedOnce(_, _) => room.ticking && !room.ended
  }

  function Changed(room: Room, ch: Change): Room
    requires Applies(room, ch)
  {
    match ch
    case Untouched => room
    case Posted(t) => room.(pending := room.pending + [t])
    case Ran =>
      var t := room.pending[0];
      if t.ForceEnd? && !room.ended then AfterEnd(AfterTask(room), t.winner) else AfterTask(room)
    case TickedOnce(delta, w) =>
      if w != 0 then AfterEnd(AfterDelta(room, delta), w) else AfterDelta(room, delta)
  }

  ghost predicate Becomes(st: System, st': System, rid: nat, ch: Change) {
    && rid in st.rooms && rid in st'.rooms && Applies(st.rooms[rid], ch)
    && st'.rooms[rid] == Changed(st.rooms[rid], ch)
  }

  // ---------------------------------------------------------------- step by step

  lemma PostBecomes(st: System, st': System, to: nat, t: RoomTask, rid: nat) returns (ch: Change)
    requires rid in st.rooms && st'.rooms == Post(st.rooms, st.table, to, t) && t != Start && t != StopTicker
    ensures Becomes(st, st', rid, ch) && !ch.Ran?
  {
    ch := if rid == to && to in st.table then Posted(t) else Untouched;
  }

  lemma SameBecomes(st: System, st': System, rid: nat)
    requires rid in st.rooms && rid in st'.rooms && st'.rooms[rid] == st.rooms[rid]
    ensures Becomes(st, st', rid, Untouched)
  {
  }

  lemma ReconnectBecomes(st: System, c: Conn, pid: nat, token: nat, rid: nat) returns (ch: Change)
    requires Sane(st) && rid in st.rooms
    ensures Becomes(st, OnReconnect(st, c, pid, token), rid, ch) && !ch.Ran?
  {
    hide Sane, W.Cancel, Post, Becomes;
    var r := OnReconnect(st, c, pid, token);
    if Accepts(st, pid, token) && st.sessions[pid].place == InRoom {
      ch := PostBecomes(st, r, st.sessions[pid].roomId, Rebind(pid, c), rid);
    } else {
      ch := Untouched;
      SameBecomes(st, r, rid);
    }
  }

  lemma InputBecomes(st: System, c: Conn, i: M.Input, rid: nat) returns (ch: Change)
    requires Sane(st) && rid in st.rooms
    ensures Becomes(st, OnInput(st, c, i), rid, ch) && !ch.Ran?
  {
    hide Sane, Post, Becomes;
    var r := OnInput(st, c, i);
    if SessionOf(st, c).Some? && st.sessions[SessionOf(st, c).value].place == InRoom {
      var pid := SessionOf(st, c).value;
      ch := PostBecomes(st, r, st.sessions[pid].roomId, Input(pid, i), rid);
    } else {
      ch := Untouched;
      SameBecomes(st, r, rid);
    }
  }

  lemma DisconnectBecomes(st: System, c: Conn, rid: nat) returns (ch: Change)
    requires Sane(st) && rid in st.rooms
    ensures Becomes(st, OnDisconnect(st, c), rid, ch) && !ch.Ran?
  {
    hide W.WellFormed, Q.Ok, W.Add, Post, Becomes, Q.Remove;
    var r := OnDisconnect(st, c);
    if c in st.connOf && st.connOf[c] in st.sessions && st.sessions[st.connOf[c]].place == InRoom {
      ch := PostBecomes(st, r, st.sessions[st.connOf[c]].roomId, Drop(st.connOf[c]), rid);
    } else {
      ch := Untouched;
      SameBecomes(st, r, rid);
    }
  }

  lemma MakeRoomKeeps(st: System, a: nat, b: nat, rid: nat)
    requires Sane(st) && a in st.sessions && b in st.sessions && rid in st.rooms && rid != st.nextRoom
    ensures rid in MakeRoom(st, a, b).rooms && MakeRoom(st, a, b).rooms[rid] == st.rooms[rid]
  {
    hide Sane, CancelMatchTimer;
  }

  lemma TryMatchKeeps(st: System, rid: nat)
    requires Sane(st) && rid in st.rooms && rid != st.nextRoom
    ensures rid in TryMatch(st).rooms && TryMatch(st).rooms[rid] == st.rooms[rid]
  {
    hide W.WellFormed, Q.Ok, Q.PopPair, MakeRoom;
    var (q, pair) := Q.PopPair(st.queue);
    if pair.Some? && pair.value.0 in st.sessions && pair.value.1 in st.sessions {
      MakeRoomKeeps(st.(queue := q), pair.value.0, pair.value.1, rid);
    }
  }

  lemma EnqueueRooms(st: System, pid: nat)
    requires Sane(st) && pid in st.sessions
    ensures Enqueue(st, pid).rooms == st.rooms && Enqueue(st, pid).nextRoom == st.nextRoom
    ensures Enqueue(st, pid).inbox == st.inbox && Enqueue(st, pid).results == st.results
  {
    hide Sane, W.Add, Q.Push;
  }

  lemma MatchBecomes(st: System, c: Conn, rid: nat)
    requires Sane(st) && rid in st.rooms && rid != st.nextRoom
    ensures Becomes(st, OnMatch(st, c), rid, Untouched)
  {
    hide Sane, OnMatch, TryMatch, Becomes;
    match SessionOf(st, c) {
      case None => MatchIdle(st, c);
      case Some(pid) =>
        if st.sessions[pid].place != InLobby || pid in st.queue.waiting {
          MatchIdle(st, c);
        } else {
          MatchGoes(st, c, pid);
          EnqueueRooms(st, pid);
          hide Enqueue;
          TryMatchKeeps(Enqueue(st, pid), rid);
        }
    }
    SameBecomes(st, OnMatch(st, c), rid);
  }

  lemma CallbackBecomes(st: System, cb: W.Callback, rid: nat) returns (ch: Change)
    requires Sane(st) && rid in st.rooms
    ensures Becomes(st, Callback(st, cb), rid, ch) && !ch.Ran?
  {
    hide Sane, Post, Becomes, W.Add, Survivor, Q.Remove;
    var r := Callback(st, cb);
    if cb.ExpireSession? && r.rooms != st.rooms {
      ch := PostBecomes(st, r, st.sessions[cb.pid].roomId, ForceEnd(Survivor(st.sessions, cb.pid)), rid);
    } else {
      ch := Untouched;
      SameBecomes(st, r, rid);
    }
  }

  lemma FireBecomes(st: System, rid: nat) returns (ch: Change)
    requires Sane(st) && st.wheel.firing != [] && rid in st.rooms
    ensures Becomes(st, FireTimer(st), rid, ch) && !ch.Ran?
  {
    assert st.wheel.firing[0] in st.wheel.firing;
    hide W.FireNext, W.WellFormed, Q.Ok, Callback, Applies, Changed;
    var n := st.wheel.nodes[st.wheel.firing[0]];
    var st1 := st.(wheel := W.FireNext(st.wheel));
    if n.canceled {
      ch := Untouched;
      SameBecomes(st, st1, rid);
    } else {
      ch := CallbackBecomes(st1, n.cb, rid);
    }
  }

  lemma RoomStepBecomes(st: System, r: nat, rid: nat)
    requires Sane(st) && r in st.rooms && st.rooms[r].pending != [] && rid in st.rooms
    ensures Becomes(st, RunRoomTask(st, r), rid, if r == rid then Ran else Untouched)
  {
    hide Sane, RunRoomTask, AfterTask, AfterEnd;
    TaskIsAfterTask(st, r);
  }

  lemma RoomTickBecomes(st: System, r: nat, delta: bool, w: nat, rid: nat)
    requires Sane(st) && r in st.rooms && st.rooms[r].ticking && rid in st.rooms
    ensures Becomes(st, TickRoom(st, r, delta, w), rid,
      if r == rid && !st.rooms[r].ended then TickedOnce(delta, w) else Untouched)
  {
    hide Sane, AfterDelta, AfterEnd;
    if !st.rooms[r].ended {
      TickIsAfterDelta(st, r, delta, w);
      hide TickRoom;
    }
  }

  /** Every step changes a room in one of these ways; it runs a task of the room exactly if
      it is that room's step. */
  lemma StepBecomes(st: System, s: Step, rid: nat) returns (ch: Change)
    requires Inv(st) && Sane(st) && Enabled(st, s) && rid in st.rooms
    ensures Becomes(st, Apply(st, s), rid, ch) && (ch.Ran? <==> s == RoomStep(rid))
  {
    hide Inv, Sane, OnReconnect, OnMatch, OnDisconnect, RunRoomTask, TickRoom, OnInput, FireTimer, Becomes, Outcome,
      W.StartTick;
    FreshRoomId(st);
    ch := Untouched;
    match s {
      case Reconnect(c, pid, token) => ch := ReconnectBecomes(st, c, pid, token, rid);
      case MatchReq(c) => MatchBecomes(st, c, rid);
      case InputReq(c, i) => ch := InputBecomes(st, c, i, rid);
      case Disconnect(c) => ch := DisconnectBecomes(st, c, rid);
      case WheelFire => ch := FireBecomes(st, rid);
      case RoomStep(r) =>
        RoomStepBecomes(st, r, rid);
        ch := if r == rid then Ran else Untouched;
      case RoomTick(r, delta, w) =>
        RoomTickBecomes(st, r, delta, w, rid);
        ch := if r == rid && !st.rooms[r].ended then TickedOnce(delta, w) else Untouched;
      case _ => SameBecomes(st, Apply(st, s), rid);
    }
  }

  // ---------------------------------------------------------------- tasks in order

  /** The tasks left, after one was run or none, are still there in order. */
  predicate TasksKept(before: seq<RoomTask>, after: seq<RoomTask>, ran: bool) {
    var rest := if ran && before != [] then before[1..] else before;
    |rest| <= |after| && after[..|rest|] == rest
  }

  lemma ChangeKeepsTasks(room: Room, ch: Change)
    requires Applies(room, ch)
    ensures TasksKept(room.pending, Changed(room, ch).pending, ch.Ran?)
  {
    hide Bind;
  }

  /** How many tasks the room runs. */
  function TasksRun(steps: seq<Step>, rid: nat): nat {
    if steps == [] then 0 else (if steps[0] == RoomStep(rid) then 1 else 0) + TasksRun(steps[1..], rid)
  }

  lemma TaskStaysUp(st: System, s: Step, rid: nat, k: nat)
    requires Inv(st) && Sane(st) && Enabled(st, s) && rid in st.rooms && k < |st.rooms[rid].pending|
    requires s == RoomStep(rid) ==> k > 0
    ensures
      var st1, k1 := Apply(st, s), if s == RoomStep(rid) then k - 1 else k;
      && rid in st1.rooms && k1 < |st1.rooms[rid].pending|
      && st1.rooms[rid].pending[k1] == st.rooms[rid].pending[k]
  {
    hide Inv, Sane, Apply, Enabled, Changed;
    var ch := StepBecomes(st, s, rid);
    ChangeKeepsTasks(st.rooms[rid], ch);
    var (before, after) := (st.rooms[rid].pending, Apply(st, s).rooms[rid].pending);
    var rest := if ch.Ran? then before[1..] else before;
    var k1 := if ch.Ran? then k - 1 else k;
    assert after[k1] == after[..|rest|][k1] == rest[k1] == before[k];
  }

  /** The task now at place `k` moves one place up for each task the room runs. */
  lemma {:induction false} TaskMovesUp(st: System, steps: seq<Step>, rid: nat, k: nat)
    requires Inv(st) && Sane(st) && ValidRun(st, steps) && rid in st.rooms && k < |st.rooms[rid].pending|
    requires TasksRun(steps, rid) <= k
    ensures
      var r, left := After(st, steps), k - TasksRun(steps, rid);
      && rid in r.rooms && left < |r.rooms[rid].pending| && r.rooms[rid].pending[left] == st.rooms[rid].pending[k]
    decreases |steps|
  {
    hide Inv, Sane, Apply, Enabled;
    if steps != [] {
      StepInv(st, steps[0]);
      TaskStaysUp(st, steps[0], rid, k);
      TaskMovesUp(Apply(st, steps[0]), steps[1..], rid, if steps[0] == RoomStep(rid) then k - 1 else k);
    }
  }

  /**
   In every reachable state an input over a player's connection changes nothing unless the
   player is in a room; then it is posted to that room, behind `n` other tasks.  In whatever
   way the run goes on, when the room has run `n` tasks this input is the one it runs next.
   */
  lemma InputReachesItsRoom(st: System, c: Conn, pid: nat, input: M.Input, steps: seq<Step>)
    requires Reachable(st) && Sane(st) && c in st.connOf && st.connOf[c] == pid
    ensures pid in st.sessions
    ensures
      var st1, rid := Apply(st, InputReq(c, input)), st.sessions[pid].roomId;
      if st.sessions[pid].place != InRoom then st1 == st
      else
        && rid in st.rooms && rid in st1.rooms
        && st1 == st.(rooms := st.rooms[rid := st1.rooms[rid]])
        && st1.rooms[rid] == st.rooms[rid].(pending := st1.rooms[rid].pending)
        && (ValidRun(st1, steps) && TasksRun(steps, rid) == |st.rooms[rid].pending| ==>
          var r := After(st1, steps);
          rid in r.rooms && r.rooms[rid].pending != [] && r.rooms[rid].pending[0] == Input(pid, input))
  {
    hide Reachable, Inv, Sane, ValidRun, After, OnInput;
    ReachableInv(st);
    MappedConn(st, c);
    InRoomFacts(st, pid);
    InputIsPosted(st, c, pid, input);
    var st1, rid := Apply(st, InputReq(c, input)), st.sessions[pid].roomId;
    StepInv(st, InputReq(c, input));
    hide Apply;
    if st.sessions[pid].place == InRoom && ValidRun(st1, steps) && TasksRun(steps, rid) == |st.rooms[rid].pending| {
      TaskMovesUp(st1, steps, rid, |st.rooms[rid].pending|);
    }
  }

  lemma InputIsPosted(st: System, c: Conn, pid: nat, input: M.Input)
    requires Sane(st) && SessionOf(st, c) == Some(pid)
    requires
      var rid := st.sessions[pid].roomId;
      st.sessions[pid].place == InRoom ==> rid in st.table && rid in st.rooms
    ensures
      var rid := st.sessions[pid].roomId;
      OnInput(st, c, input) ==
        if st.sessions[pid].place != InRoom then st
        else st.(rooms := st.rooms[rid := st.rooms[rid].(pending := st.rooms[rid].pending + [Input(pid, input)])])
  {
    hide Sane;
  }
}
