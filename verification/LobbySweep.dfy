/** The sweep over silent connections keeps itself going: it is always due within 50 ticks. */
module LobbySweep {
  import opened Prelude
  import opened Lobby
  import opened LobbyInv
  import opened LobbyTheorems
  import opened LobbyHistory
  import opened LobbyWaiting
  import W = WheelModel
  import Q = QueueModel

  /** The live sweep timers. */
  function Sweeps(timers: map<nat, W.Timer>): set<nat> {
    set t | t in timers && timers[t].cb == W.Sweep
  }

  /** Exactly one sweep is under way, and it is due within 50 ticks. */
  ghost predicate OneSweep(timers: map<nat, W.Timer>, now: nat) {
    exists t :: t in timers && Sweeps(timers) == {t} && timers[t].expiry <= now + 50
  }

  ghost predicate Sweeping(w: W.Wheel) {
    OneSweep(W.Flat(w), w.now)
  }

  lemma LessOther(timers: map<nat, W.Timer>, now: nat, t: nat)
    requires OneSweep(timers, now) && (t in timers ==> timers[t].cb != W.Sweep)
    ensures OneSweep(timers - {t}, now)
  {
    var x :| x in timers && Sweeps(timers) == {x} && timers[x].expiry <= now + 50;
    assert x in Sweeps(timers);
    assert Sweeps(timers - {t}) == {x};
  }

  lemma MoreOther(timers: map<nat, W.Timer>, now: nat, t: nat, timer: W.Timer)
    requires OneSweep(timers, now) && t !in timers && timer.cb != W.Sweep
    ensures OneSweep(timers[t := timer], now)
  {
    var x :| x in timers && Sweeps(timers) == {x} && timers[x].expiry <= now + 50;
    assert Sweeps(timers[t := timer]) == {x};
  }

  /** The sweep that went off is replaced by the next. */
  lemma Replaced(timers: map<nat, W.Timer>, now: nat, t: nat, t': nat)
    requires OneSweep(timers, now) && t in timers && timers[t].cb == W.Sweep && t' !in timers - {t}
    ensures OneSweep((timers - {t})[t' := W.Timer(now + 50, W.Sweep)], now)
  {
    assert t in Sweeps(timers);
    var next := (timers - {t})[t' := W.Timer(now + 50, W.Sweep)];
    assert Sweeps(next) == {t'};
  }

  // ---------------------------------------------------------------- what a step does to it

  lemma AddSweeping(w: W.Wheel, delayMs: nat, cb: W.Callback)
    requires W.Inv(w) && W.WellFormed(w) && Sweeping(w) && cb != W.Sweep
    ensures Sweeping(W.Add(w, delayMs, cb)) && W.Inv(W.Add(w, delayMs, cb))
  {
    hide W.Inv, W.Flat, W.Add, W.WellFormed, OneSweep, W.EffectiveTicks;
    W.AddRefines(w, delayMs, cb);
    MoreOther(W.Flat(w), w.now, w.nextId, W.Timer(w.now + W.EffectiveTicks(delayMs), cb));
  }

  lemma CancelSweeping(w: W.Wheel, t: nat)
    requires W.Inv(w) && W.WellFormed(w) && Sweeping(w)
    requires t in W.Flat(w) ==> W.Flat(w)[t].cb != W.Sweep
    ensures Sweeping(W.Cancel(w, t))
  {
    hide W.Inv, W.Flat, W.Cancel, W.WellFormed, OneSweep;
    W.CancelRefines(w, t);
    LessOther(W.Flat(w), w.now, t);
  }

  lemma ReconnectSweeps(st: System, c: Conn, p: nat, token: nat)
    requires Inv(st) && Sane(st) && Sweeping(st.wheel)
    ensures Sweeping(OnReconnect(st, c, p, token).wheel)
  {
    hide W.Inv, W.Flat, Q.Settled, SessionsOk, ConnsOk, RoomsOk, AgreementOk, EndsOk, ResultsOk, GoneOk,
      MatchTimersOk, W.WellFormed, Q.Ok, Sweeping, W.Cancel, Post;
    if Accepts(st, p, token) {
      CancelSweeping(st.wheel, st.sessions[p].expireTimer);
    }
  }

  lemma DisconnectSweeps(st: System, c: Conn)
    requires Inv(st) && Sane(st) && Sweeping(st.wheel)
    ensures Sweeping(OnDisconnect(st, c).wheel)
  {
    hide Inv, W.Inv, W.WellFormed, Q.Ok, Sweeping, W.Add, OnDisconnect;
    InvWheel(st);
    if c in st.connOf {
      MappedConn(st, c);
      DropParts(st, c);
      AddSweeping(st.wheel, SESSION_KEEP_MS, W.ExpireSession(st.connOf[c]));
    } else {
      NotMapped(st, c);
    }
  }

  lemma NotMapped(st: System, c: Conn)
    requires Sane(st) && c !in st.connOf
    ensures OnDisconnect(st, c) == st
  {
    hide Sane, DropSession;
  }

  // A request adds a match timer and cancels at most two.

  lemma CancelMatchSweeps(wheel: W.Wheel, timers: map<nat, nat>, pid: nat)
    requires W.Inv(wheel) && W.WellFormed(wheel) && Sweeping(wheel)
    requires MatchTimersOk(timers, W.Flat(wheel), wheel.nextId)
    ensures
      var r := CancelMatchTimer(wheel, timers, pid);
      W.Inv(r) && Sweeping(r) && MatchTimersOk(timers - {pid}, W.Flat(r), r.nextId)
  {
    hide W.Inv, W.Flat, W.WellFormed, Sweeping, W.Cancel;
    if pid in timers {
      CancelSweeping(wheel, timers[pid]);
      W.CancelRefines(wheel, timers[pid]);
      FewerTimers(timers, timers - {pid}, W.Flat(wheel), timers[pid], wheel.nextId);
    }
  }

  lemma MakeRoomWheel(st: System, a: nat, b: nat)
    requires Sane(st) && a in st.sessions && b in st.sessions
    ensures
      var w1 := CancelMatchTimer(st.wheel, st.matchTimer, a);
      W.WellFormed(w1) && MakeRoom(st, a, b).wheel == CancelMatchTimer(w1, st.matchTimer - {a}, b)
  {
    hide W.WellFormed, Q.Ok, CancelMatchTimer;
  }

  lemma TryMatchSweeps(st: System)
    requires Sane(st) && W.Inv(st.wheel) && Sweeping(st.wheel)
    requires MatchTimersOk(st.matchTimer, W.Flat(st.wheel), st.wheel.nextId)
    ensures Sweeping(TryMatch(st).wheel)
  {
    hide W.WellFormed, Q.Ok, Q.PopPair, MakeRoom, Sweeping, W.Inv, W.Flat, MatchTimersOk, CancelMatchTimer;
    var (q, pair) := Q.PopPair(st.queue);
    if pair.Some? && pair.value.0 in st.sessions && pair.value.1 in st.sessions {
      var (a, b) := pair.value;
      var st1 := st.(queue := q);
      CancelMatchSweeps(st.wheel, st.matchTimer, a);
      MakeRoomWheel(st1, a, b);
      CancelMatchSweeps(CancelMatchTimer(st.wheel, st.matchTimer, a), st.matchTimer - {a}, b);
    }
  }

  lemma EnqueueParts(st: System, pid: nat)
    requires Inv(st) && Sane(st) && pid in st.sessions && Sweeping(st.wheel)
    ensures
      var r := Enqueue(st, pid);
      W.Inv(r.wheel) && Sweeping(r.wheel) && MatchTimersOk(r.matchTimer, W.Flat(r.wheel), r.wheel.nextId)
  {
    hide W.Inv, W.Flat, Q.Settled, SessionsOk, ConnsOk, RoomsOk, AgreementOk, EndsOk, ResultsOk, GoneOk, TimersOk,
      MatchTimersOk, W.WellFormed, Q.Ok, Sweeping, W.Add, Q.Push, W.EffectiveTicks;
    AddSweeping(st.wheel, MATCH_TIMEOUT_MS, W.MatchTimeout(pid));
    W.AddRefines(st.wheel, MATCH_TIMEOUT_MS, W.MatchTimeout(pid));
    EnqueueMatchTimers(st.matchTimer, W.Flat(st.wheel), st.wheel.nextId, pid,
      st.wheel.now + W.EffectiveTicks(MATCH_TIMEOUT_MS));
  }

  lemma MatchSweeps(st: System, c: Conn)
    requires Inv(st) && Sane(st) && Sweeping(st.wheel)
    ensures Sweeping(OnMatch(st, c).wheel)
  {
    hide Inv, Sane, OnMatch, TryMatch, Enqueue, Sweeping, W.Inv, MatchTimersOk;
    match SessionOf(st, c) {
      case None => MatchIdle(st, c);
      case Some(pid) =>
        if st.sessions[pid].place != InLobby || pid in st.queue.waiting {
          MatchIdle(st, c);
        } else {
          MatchGoes(st, c, pid);
          EnqueueParts(st, pid);
          TryMatchSweeps(Enqueue(st, pid));
        }
    }
  }

  lemma TickSweeps(st: System)
    requires Inv(st) && Sane(st) && st.wheel.firing == [] && Sweeping(st.wheel)
    ensures Sweeping(TickWheel(st).wheel)
  {
    hide Inv, Sane, W.Inv, W.Flat, W.StartTick;
    InvWheel(st);
    W.StartTickRefines(st.wheel);
    var timers := W.Flat(st.wheel);
    var t :| t in timers && Sweeps(timers) == {t} && timers[t].expiry <= st.wheel.now + 50;
    assert timers[t].expiry <= st.wheel.now + 1 + 50;
  }

  lemma SweepTicks()
    ensures W.EffectiveTicks(SWEEP_MS) == 50
  {
  }

  /** The sweep goes off and renews itself. */
  lemma SweepRenews(w: W.Wheel)
    requires W.Inv(w) && W.WellFormed(w) && w.firing != [] && Sweeping(w) && W.WellFormed(W.FireNext(w))
    requires w.firing[0] in W.Flat(w) && W.Flat(w)[w.firing[0]].cb == W.Sweep
    ensures Sweeping(W.Add(W.FireNext(w), SWEEP_MS, W.Sweep))
  {
    hide W.Inv, W.Flat, W.Add, W.WellFormed, W.FireNext, OneSweep, W.EffectiveTicks;
    SweepTicks();
    W.FireNextRefines(w);
    var r := W.FireNext(w);
    W.AddRefines(r, SWEEP_MS, W.Sweep);
    Replaced(W.Flat(w), w.now, w.firing[0], r.nextId);
  }

  /** Another timer goes off, or none. */
  lemma OtherFires(w: W.Wheel)
    requires W.Inv(w) && W.WellFormed(w) && w.firing != [] && Sweeping(w)
    requires w.firing[0] in W.Flat(w) ==> W.Flat(w)[w.firing[0]].cb != W.Sweep
    ensures Sweeping(W.FireNext(w))
  {
    hide W.Inv, W.Flat, W.WellFormed, W.FireNext, OneSweep;
    W.FireNextRefines(w);
    LessOther(W.Flat(w), w.now, w.firing[0]);
  }

  lemma CallbackWheel(st: System, cb: W.Callback)
    requires Sane(st)
    ensures Callback(st, cb).wheel == if cb == W.Sweep then W.Add(st.wheel, SWEEP_MS, W.Sweep) else st.wheel
  {
    hide W.WellFormed, Q.Ok, OnMatchTimeout, ExpireSession, W.Add;
    match cb {
      case MatchTimeout(p) => TimeoutWaits(st, p);
      case ExpireSession(p) => ExpireWaits(st, p);
      case Sweep =>
    }
  }

  lemma FireSweeps(st: System)
    requires Inv(st) && Sane(st) && st.wheel.firing != [] && Sweeping(st.wheel)
    ensures Sweeping(FireTimer(st).wheel)
  {
    hide Inv, W.WellFormed, Q.Ok, W.Inv, W.FireNext, Callback, FireTimer, Sweeping, W.Flat, W.Add;
    InvWheel(st);
    W.NextIsLive(st.wheel);
    FiresBy(st);
    var n, st1 := st.wheel.nodes[st.wheel.firing[0]], st.(wheel := W.FireNext(st.wheel));
    if !n.canceled {
      CallbackWheel(st1, n.cb);
    }
    if !n.canceled && n.cb == W.Sweep {
      SweepRenews(st.wheel);
    } else {
      OtherFires(st.wheel);
    }
  }

  lemma StepSweeps(st: System, s: Step)
    requires Inv(st) && Sane(st) && Enabled(st, s) && Sweeping(st.wheel)
    ensures Sweeping(Apply(st, s).wheel)
  {
    hide Inv, Sane, OnReconnect, OnMatch, OnDisconnect, TickWheel, FireTimer, Sweeping;
    match s {
      case Reconnect(c, p, token) => ReconnectSweeps(st, c, p, token);
      case MatchReq(c) => MatchSweeps(st, c);
      case Disconnect(c) => DisconnectSweeps(st, c);
      case WheelTick => TickSweeps(st);
      case WheelFire => FireSweeps(st);
      case _ => QuietStep(st, s);
    }
  }

  // ---------------------------------------------------------------- runs

  lemma {:induction false} RunSweeps(st: System, steps: seq<Step>)
    requires Inv(st) && Sane(st) && ValidRun(st, steps) && Sweeping(st.wheel)
    ensures Sweeping(After(st, steps).wheel)
    decreases |steps|
  {
    hide Inv, Sane, Apply, Sweeping, Enabled;
    if steps != [] {
      StepInv(st, steps[0]);
      StepSweeps(st, steps[0]);
      RunSweeps(Apply(st, steps[0]), steps[1..]);
    }
  }

  lemma InitialSweeps()
    ensures Inv(Initial()) && Sweeping(Initial().wheel)
  {
    InitialInv();
    hide Inv;
    FirstSweep();
  }

  lemma EmptyWheel()
    ensures W.Inv(W.Init()) && W.Flat(W.Init()) == map[]
  {
    W.InitInv();
    hide W.Inv;
  }

  lemma FirstSweep()
    ensures
      var w := W.Init();
      W.WellFormed(w) && Sweeping(W.Add(w, SWEEP_MS, W.Sweep))
  {
    EmptyWheel();
    var w := W.Init();
    hide W.Inv, W.Add, W.Flat, W.EffectiveTicks, W.Init, W.WellFormed, OneSweep;
    SweepTicks();
    W.AddRefines(w, SWEEP_MS, W.Sweep);
    var timers := W.Flat(W.Add(w, SWEEP_MS, W.Sweep));
    OnlySweep(timers, w.nextId, w.now);
  }

  lemma OnlySweep(timers: map<nat, W.Timer>, t: nat, now: nat)
    requires timers == map[t := W.Timer(now + 50, W.Sweep)]
    ensures OneSweep(timers, now)
  {
    assert Sweeps(timers) == {t};
  }

  /** In every reachable state exactly one sweep is under way, due within the next 50 ticks
      and never overdue. */
  lemma SweepNeverStops(st: System)
    requires Reachable(st)
    ensures
      var (timers, now) := (W.Flat(st.wheel), st.wheel.now);
      exists t :: t in timers && Sweeps(timers) == {t} && now <= timers[t].expiry <= now + 50
  {
    hide Reachable, Inv, Sane, W.Inv, W.Flat, Sweeping, Sweeps;
    ReachableInv(st);
    ReachableSweeps(st);
    InvWheel(st);
    DueSoon(st.wheel);
  }

  lemma ReachableSweeps(st: System)
    requires Reachable(st)
    ensures Sweeping(st.wheel)
  {
    var steps :| ValidRun(Initial(), steps) && After(Initial(), steps) == st;
    hide Inv, Sane, Initial, ValidRun, After, Sweeping;
    InitialSweeps();
    InvSane(Initial());
    RunSweeps(Initial(), steps);
  }

  lemma DueSoon(w: W.Wheel)
    requires W.Inv(w) && Sweeping(w)
    ensures exists t ::
      t in W.Flat(w) && Sweeps(W.Flat(w)) == {t} && w.now <= W.Flat(w)[t].expiry <= w.now + 50
  {
    hide W.Inv, W.Flat;
    W.NothingOverdue(w);
    var timers := W.Flat(w);
    var t :| t in timers && Sweeps(timers) == {t} && timers[t].expiry <= w.now + 50;
    assert w.now <= timers[t].expiry;
  }
}
