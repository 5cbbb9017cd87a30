/**
 The lobby thread and the room threads as one state machine.

 The lobby owns sessions, the connection map, the matching queue, the room table and the
 timer wheel; each room runs on a game thread and is reached only through its queue of
 posted tasks, and answers only by posting to the lobby.  A step is one lobby event, one
 posted task, one room tick or one step of the wheel, so every interleaving of the
 threads is a run.
 */
module Lobby {
  import opened Prelude
  import W = WheelModel
  import Q = QueueModel
  import M = SimModel

  const MATCH_TIMEOUT_MS: nat := 30000
  const SESSION_KEEP_MS: nat := 30000
  const SWEEP_MS: nat := 5000
  const KEEP_TICKS: nat := 300

  type Conn = nat

  datatype Place = InLobby | Matching | InRoom

  datatype Session = Session(
    token: nat, account: string, conn: Option<Conn>, roomId: nat, place: Place, expireTimer: nat)

  /** What the lobby posts to a room; `StopTicker` is posted by the room to itself. */
  datatype RoomTask =
    | Start
    | Input(pid: nat, input: M.Input)
    | Rebind(pid: nat, conn: Conn)
    | Drop(pid: nat)
    | ForceEnd(winner: nat)
    | StopTicker

  /** What a room sends to everybody in it. */
  datatype RoomMsg = EnterMsg | SnapMsg | EndMsg(winner: nat)

  datatype Room = Room(
    a: nat, b: nat,
    conns: map<nat, Option<Conn>>,
    ended: bool, ticking: bool,
    pending: seq<RoomTask>,
    out: seq<RoomMsg>)

  /** What a room posts to the lobby. */
  datatype RoomEnd = RoomEnd(rid: nat, winner: nat)

  datatype Result = Result(rid: nat, winner: nat, loser: nat, winnerAccount: string, loserAccount: string)

  /** `dropTick` remembers when each player was last disconnected, `gone` when its session
      was destroyed, `results` what was sent to be recorded. */
  datatype System = System(
    sessions: map<nat, Session>,
    connOf: map<Conn, nat>,
    table: set<nat>,
    rooms: map<nat, Room>,
    queue: Q.Queue,
    matchTimer: map<nat, nat>,
    wheel: W.Wheel,
    nextPlayer: nat, nextRoom: nat,
    inbox: seq<RoomEnd>,
    results: seq<Result>,
    dropTick: map<nat, nat>,
    gone: map<nat, nat>)

  predicate Sane(st: System) {
    W.WellFormed(st.wheel) && Q.Ok(st.queue)
  }

  function Initial(): (st: System)
    ensures Sane(st)
  {
    System(map[], map[], {}, map[], Q.Empty, map[], W.Add(W.Init(), SWEEP_MS, W.Sweep), 1, 1, [], [], map[], map[])
  }

  // ---------------------------------------------------------------- lobby events

  function OnLogin(st: System, c: Conn, account: string, token: nat): (r: System)
    requires Sane(st)
    ensures Sane(r)
  {
    var pid := st.nextPlayer;
    st.(sessions := st.sessions[pid := Session(token, account, Some(c), 0, InLobby, 0)],
        connOf := st.connOf[c := pid],
        nextPlayer := pid + 1)
  }

  /** Posts a task to a room that is still in the table. */
  function Post(rooms: map<nat, Room>, table: set<nat>, rid: nat, t: RoomTask): map<nat, Room> {
    if rid in table && rid in rooms then rooms[rid := rooms[rid].(pending := rooms[rid].pending + [t])] else rooms
  }

  predicate Accepts(st: System, pid: nat, token: nat) {
    pid in st.sessions && st.sessions[pid].token == token && st.sessions[pid].conn == None
  }

  function OnReconnect(st: System, c: Conn, pid: nat, token: nat): (r: System)
    requires Sane(st)
    ensures Sane(r)
  {
    if !Accepts(st, pid, token) then st
    else
      var s := st.sessions[pid];
      st.(wheel := if s.expireTimer != 0 then W.Cancel(st.wheel, s.expireTimer) else st.wheel,
          sessions := st.sessions[pid := s.(conn := Some(c), expireTimer := 0)],
          connOf := st.connOf[c := pid],
          rooms := if s.place == InRoom then Post(st.rooms, st.table, s.roomId, Rebind(pid, c)) else st.rooms)
  }

  function SessionOf(st: System, c: Conn): Option<nat> {
    if c in st.connOf && st.connOf[c] in st.sessions then Some(st.connOf[c]) else None
  }

  /** A request to be matched: into the queue, and a 30 s timer. */
  function Enqueue(st: System, pid: nat): (r: System)
    requires Sane(st) && pid in st.sessions
    ensures Sane(r)
  {
    st.(queue := Q.Push(st.queue, pid),
        sessions := st.sessions[pid := st.sessions[pid].(place := Matching)],
        matchTimer := st.matchTimer[pid := st.wheel.nextId],
        wheel := W.Add(st.wheel, MATCH_TIMEOUT_MS, W.MatchTimeout(pid)))
  }

  function OnMatch(st: System, c: Conn): (r: System)
    requires Sane(st)
    ensures Sane(r)
  {
    match SessionOf(st, c)
    case None => st
    case Some(pid) =>
      if st.sessions[pid].place != InLobby || pid in st.queue.waiting then st
      else TryMatch(Enqueue(st, pid))
  }

  /** Cancels a player's match timer, if one is on record. */
  function CancelMatchTimer(wheel: W.Wheel, timers: map<nat, nat>, pid: nat): (r: W.Wheel)
    requires W.WellFormed(wheel)
    ensures W.WellFormed(r)
  {
    if pid in timers then W.Cancel(wheel, timers[pid]) else wheel
  }

  function EnterRoom(s: Session, rid: nat): Session {
    s.(place := InRoom, roomId := rid)
  }

  function TryMatch(st: System): (r: System)
    requires Sane(st)
    ensures Sane(r)
  {
    var (q, pair) := Q.PopPair(st.queue);
    match pair
    case None => st.(queue := q)
    case Some((a, b)) =>
      if a !in st.sessions || b !in st.sessions then st.(queue := q)
      else MakeRoom(st.(queue := q), a, b)
  }

  function MakeRoom(st: System, a: nat, b: nat): (r: System)
    requires Sane(st) && a in st.sessions && b in st.sessions
    ensures Sane(r)
  {
    var rid := st.nextRoom;
    var (sa, sb) := (st.sessions[a], st.sessions[b]);
    var room := Room(a, b, map[a := sa.conn, b := sb.conn], false, false, [Start], []);
    var w1 := CancelMatchTimer(st.wheel, st.matchTimer, a);
    var t1 := st.matchTimer - {a};
    st.(wheel := CancelMatchTimer(w1, t1, b),
        matchTimer := t1 - {b},
        nextRoom := rid + 1,
        table := st.table + {rid},
        rooms := st.rooms[rid := room],
        sessions := st.sessions[a := EnterRoom(sa, rid)][b := EnterRoom(sb, rid)])
  }

  function OnInput(st: System, c: Conn, input: M.Input): (r: System)
    requires Sane(st)
    ensures Sane(r)
  {
    match SessionOf(st, c)
    case None => st
    case Some(pid) =>
      if st.sessions[pid].place != InRoom then st
      else st.(rooms := Post(st.rooms, st.table, st.sessions[pid].roomId, Input(pid, input)))
  }

  function OnDisconnect(st: System, c: Conn): (r: System)
    requires Sane(st)
    ensures Sane(r)
  {
    if c !in st.connOf then st
    else
      var pid := st.connOf[c];
      var st1 := st.(connOf := st.connOf - {c});
      if pid !in st.sessions then st1
      else DropSession(st1, pid)
  }

  function DropSession(st: System, pid: nat): (r: System)
    requires Sane(st) && pid in st.sessions
    ensures Sane(r)
  {
    var s := st.sessions[pid];
    st.(queue := if s.place == Matching then Q.Remove(st.queue, pid) else st.queue,
        rooms := if s.place == InRoom then Post(st.rooms, st.table, s.roomId, Drop(pid)) else st.rooms,
        sessions := st.sessions[pid := s.(conn := None,
                                          place := if s.place == Matching then InLobby else s.place,
                                          expireTimer := st.wheel.nextId)],
        wheel := W.Add(st.wheel, SESSION_KEEP_MS, W.ExpireSession(pid)),
        dropTick := st.dropTick[pid := st.wheel.now])
  }

  // ---------------------------------------------------------------- timers

  predicate Opponent(sessions: map<nat, Session>, pid: nat, o: nat) {
    pid in sessions && o in sessions && o != pid && sessions[o].roomId == sessions[pid].roomId
  }

  /** The winner by forfeit: another session in the same room, 0 if there is none. */
  ghost function Survivor(sessions: map<nat, Session>, pid: nat): (w: nat)
    ensures w != 0 ==> Opponent(sessions, pid, w)
    ensures (exists o: nat :: o != 0 && Opponent(sessions, pid, o)) ==> w != 0
  {
    if exists o: nat :: o != 0 && Opponent(sessions, pid, o) then
      var o: nat :| o != 0 && Opponent(sessions, pid, o); o
    else 0
  }

  ghost function ExpireSession(st: System, pid: nat): (r: System)
    requires Sane(st)
    ensures Sane(r)
  {
    ExpireFor(st, pid, Survivor(st.sessions, pid))
  }

  /** The same with the winner by forfeit given. */
  function ExpireFor(st: System, pid: nat, winner: nat): (r: System)
    requires Sane(st)
    ensures Sane(r)
  {
    if pid !in st.sessions || st.sessions[pid].conn.Some? then st
    else
      var s := st.sessions[pid];
      st.(rooms := if s.place == InRoom then Post(st.rooms, st.table, s.roomId, ForceEnd(winner)) else st.rooms,
          sessions := st.sessions - {pid},
          gone := st.gone[pid := st.wheel.now])
  }

  function OnMatchTimeout(st: System, pid: nat): (r: System)
    requires Sane(st)
    ensures Sane(r)
  {
    var st1 := st.(matchTimer := st.matchTimer - {pid});
    if pid !in st.queue.waiting then st1
    else
      var st2 := st1.(queue := Q.Remove(st.queue, pid));
      if pid !in st.sessions then st2
      else st2.(sessions := st.sessions[pid := st.sessions[pid].(place := InLobby)])
  }

  /** Kicking silent connections shows up as later disconnect events; here the sweep only
      renews itself. */
  function OnSweep(st: System): (r: System)
    requires Sane(st)
    ensures Sane(r)
  {
    st.(wheel := W.Add(st.wheel, SWEEP_MS, W.Sweep))
  }

  ghost function Callback(st: System, cb: W.Callback): (r: System)
    requires Sane(st)
    ensures Sane(r)
  {
    match cb
    case MatchTimeout(pid) => OnMatchTimeout(st, pid)
    case ExpireSession(pid) => ExpireSession(st, pid)
    case Sweep => OnSweep(st)
  }

  ghost function FireTimer(st: System): (r: System)
    requires Sane(st) && st.wheel.firing != []
    ensures Sane(r)
  {
    var n := st.wheel.nodes[st.wheel.firing[0]];
    var st1 := st.(wheel := W.FireNext(st.wheel));
    if n.canceled then st1 else Callback(st1, n.cb)
  }

  function TickWheel(st: System): (r: System)
    requires Sane(st)
    ensures Sane(r)
  {
    st.(wheel := W.StartTick(st.wheel))
  }

  // ---------------------------------------------------------------- rooms

  /** The effect of a task on the connection of player `pid`. */
  function Effect(t: RoomTask, pid: nat, cur: Option<Conn>): Option<Conn> {
    match t
    case Rebind(p, c) => if p == pid then Some(c) else cur
    case Drop(p) => if p == pid then None else cur
    case _ => cur
  }

  function Bind(t: RoomTask, conns: map<nat, Option<Conn>>): map<nat, Option<Conn>> {
    map p | p in conns :: Effect(t, p, conns[p])
  }

  function EndBattle(st: System, rid: nat, winner: nat): System
    requires rid in st.rooms
  {
    var room := st.rooms[rid];
    st.(rooms := st.rooms[rid := room.(ended := true,
                                       out := room.out + [EndMsg(winner)],
                                       pending := room.pending + [StopTicker])],
        inbox := st.inbox + [RoomEnd(rid, winner)])
  }

  function SetRoom(st: System, rid: nat, room: Room): System {
    st.(rooms := st.rooms[rid := room])
  }

  function RunRoomTask(st: System, rid: nat): (r: System)
    requires Sane(st) && rid in st.rooms && st.rooms[rid].pending != []
    ensures Sane(r)
  {
    var t := st.rooms[rid].pending[0];
    var room := st.rooms[rid].(pending := st.rooms[rid].pending[1..]);
    match t
    case Start => SetRoom(st, rid, room.(ticking := true, out := room.out + [EnterMsg]))
    case Input(_, _) => SetRoom(st, rid, room)
    case Rebind(_, _) => SetRoom(st, rid, room.(conns := Bind(t, room.conns)))
    case Drop(_) => SetRoom(st, rid, room.(conns := Bind(t, room.conns)))
    case StopTicker => SetRoom(st, rid, room.(ticking := false))
    case ForceEnd(w) => if room.ended then SetRoom(st, rid, room) else EndBattle(SetRoom(st, rid, room), rid, w)
  }

  /** A tick of the simulation: `delta` says whether anything changed, `winner` whether
      exactly one player is left alive. */
  function TickRoom(st: System, rid: nat, delta: bool, winner: nat): (r: System)
    requires Sane(st) && rid in st.rooms
    ensures Sane(r)
  {
    var room := st.rooms[rid];
    if room.ended then st
    else
      var st1 := SetRoom(st, rid, room.(out := room.out + if delta then [SnapMsg] else []));
      if winner != 0 then EndBattle(st1, rid, winner) else st1
  }

  // ---------------------------------------------------------------- end of a battle

  predicate Plays(sessions: map<nat, Session>, pid: nat, rid: nat) {
    pid in sessions && sessions[pid].roomId == rid
  }

  function BackToLobby(sessions: map<nat, Session>, rid: nat): map<nat, Session> {
    map pid | pid in sessions ::
      if sessions[pid].roomId == rid then sessions[pid].(roomId := 0, place := InLobby) else sessions[pid]
  }

  /** The result to record: both accounts known and not empty. */
  ghost function Outcome(sessions: map<nat, Session>, rid: nat, winner: nat): (r: seq<Result>)
    ensures |r| <= 1
    ensures forall i | 0 <= i < |r| ::
      r[i].rid == rid && r[i].winner == winner && winner != r[i].loser
      && Plays(sessions, winner, rid) && Plays(sessions, r[i].loser, rid)
      && r[i].winnerAccount == sessions[winner].account && r[i].loserAccount == sessions[r[i].loser].account
  {
    if Plays(sessions, winner, rid) && sessions[winner].account != ""
       && (exists l :: l != winner && Plays(sessions, l, rid) && sessions[l].account != "") then
      var l :| l != winner && Plays(sessions, l, rid) && sessions[l].account != "";
      [Result(rid, winner, l, sessions[winner].account, sessions[l].account)]
    else []
  }

  ghost function OnRoomEnd(st: System, rid: nat, winner: nat): (r: System)
    requires Sane(st)
    ensures Sane(r)
  {
    st.(table := st.table - {rid},
        sessions := BackToLobby(st.sessions, rid),
        results := st.results + Outcome(st.sessions, rid, winner))
  }

  ghost function RunLobbyTask(st: System): (r: System)
    requires Sane(st) && st.inbox != []
    ensures Sane(r)
  {
    OnRoomEnd(st.(inbox := st.inbox[1..]), st.inbox[0].rid, st.inbox[0].winner)
  }

  // ---------------------------------------------------------------- steps and runs

  datatype Step =
    | Login(c: Conn, account: string, token: nat)
    | Reconnect(c: Conn, pid: nat, token: nat)
    | MatchReq(c: Conn)
    | InputReq(c: Conn, input: M.Input)
    | Disconnect(c: Conn)
    | WheelTick
    | WheelFire
    | LobbyTask
    | RoomStep(rid: nat)
    | RoomTick(rid: nat, delta: bool, winner: nat)

  predicate Enabled(st: System, s: Step) {
    match s
    case WheelTick => st.wheel.firing == []
    case WheelFire => st.wheel.firing != []
    case LobbyTask => st.inbox != []
    case RoomStep(rid) => rid in st.rooms && st.rooms[rid].pending != []
    case RoomTick(rid, _, w) => rid in st.rooms && st.rooms[rid].ticking &&
      (w == 0 || w == st.rooms[rid].a || w == st.rooms[rid].b)
    case _ => true
  }

  ghost function Apply(st: System, s: Step): (r: System)
    requires Sane(st) && Enabled(st, s)
    ensures Sane(r)
  {
    match s
    case Login(c, account, token) => OnLogin(st, c, account, token)
    case Reconnect(c, pid, token) => OnReconnect(st, c, pid, token)
    case MatchReq(c) => OnMatch(st, c)
    case InputReq(c, input) => OnInput(st, c, input)
    case Disconnect(c) => OnDisconnect(st, c)
    case WheelTick => TickWheel(st)
    case WheelFire => FireTimer(st)
    case LobbyTask => RunLobbyTask(st)
    case RoomStep(rid) => RunRoomTask(st, rid)
    case RoomTick(rid, delta, w) => TickRoom(st, rid, delta, w)
  }

  ghost predicate ValidRun(st: System, steps: seq<Step>)
    requires Sane(st)
    decreases |steps|
  {
    steps == [] || (Enabled(st, steps[0]) && ValidRun(Apply(st, steps[0]), steps[1..]))
  }

  ghost function After(st: System, steps: seq<Step>): (r: System)
    requires Sane(st) && ValidRun(st, steps)
    ensures Sane(r)
    decreases |steps|
  {
    if steps == [] then st else After(Apply(st, steps[0]), steps[1..])
  }
}
