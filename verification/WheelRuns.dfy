/**
 Whole runs of the timer wheel: what happens to every timer ever added, whatever the
 callbacks do, and that the size of the steps in which time is fed in does not matter.
 */
module WheelRuns {
  import opened WheelModel

  /** The atomic steps of the wheel.  A callback runs between two `DoFire` steps and may
      add and cancel at will. */
  datatype Step = DoAdd(delayMs: nat, cb: Callback) | DoCancel(id: nat) | DoTick | DoFire

  predicate Enabled(w: Wheel, s: Step) {
    match s
    case DoTick => w.firing == []
    case DoFire => w.firing != []
    case _ => true
  }

  function Apply(w: Wheel, s: Step): (r: Wheel)
    requires WellFormed(w) && Enabled(w, s)
    ensures WellFormed(r)
  {
    match s
    case DoAdd(d, cb) => Add(w, d, cb)
    case DoCancel(id) => Cancel(w, id)
    case DoTick => StartTick(w)
    case DoFire => FireNext(w)
  }

  /** A request as the caller made it. */
  datatype Request = Request(tick: nat, delayMs: nat, cb: Callback)

  /** A wheel with what its callers did to it: all requests ever made, and the ids that
      were cancelled while neither fired nor cancelled. */
  datatype Traced = Traced(w: Wheel, requests: map<nat, Request>, cancelled: set<nat>)

  predicate HasFired(log: seq<Fired>, id: nat) {
    exists i | 0 <= i < |log| :: log[i].id == id
  }

  function TracedApply(t: Traced, s: Step): (r: Traced)
    requires WellFormed(t.w) && Enabled(t.w, s)
    ensures WellFormed(r.w)
  {
    Traced(
      Apply(t.w, s),
      if s.DoAdd? then t.requests[t.w.nextId := Request(t.w.now, s.delayMs, s.cb)] else t.requests,
      if s.DoCancel? && s.id in t.requests && !HasFired(t.w.log, s.id) then t.cancelled + {s.id}
      else t.cancelled)
  }

  predicate ValidRun(t: Traced, steps: seq<Step>)
    requires WellFormed(t.w)
    decreases |steps|
  {
    steps == [] || (Enabled(t.w, steps[0]) && ValidRun(TracedApply(t, steps[0]), steps[1..]))
  }

  function After(t: Traced, steps: seq<Step>): (r: Traced)
    requires WellFormed(t.w) && ValidRun(t, steps)
    ensures WellFormed(r.w)
    decreases |steps|
  {
    if steps == [] then t else After(TracedApply(t, steps[0]), steps[1..])
  }

  function DueTick(q: Request): nat {
    q.tick + EffectiveTicks(q.delayMs)
  }

  /** The books balance: every request is exactly one of pending, cancelled and fired; it
      fired at its due tick with its own callback, and once only. */
  ghost predicate Ledger(t: Traced) {
    && (forall id :: id in t.requests <==> 1 <= id < t.w.nextId)
    && t.cancelled <= t.requests.Keys
    && (forall id | id in t.requests :: Booked(t, id))
    && (forall i | 0 <= i < |t.w.log| :: t.w.log[i].id in t.requests)
    && (forall i, j | 0 <= i < j < |t.w.log| :: t.w.log[i].id != t.w.log[j].id)
  }

  ghost predicate Booked(t: Traced, id: nat)
    requires id in t.requests
  {
    var q := t.requests[id];
    && (id in Flat(t.w) <==> id !in t.cancelled && !HasFired(t.w.log, id))
    && !(id in t.cancelled && HasFired(t.w.log, id))
    && (id in Flat(t.w) ==> Flat(t.w)[id] == Timer(DueTick(q), q.cb) && t.w.now <= DueTick(q))
    && (forall i | 0 <= i < |t.w.log| && t.w.log[i].id == id ::
          t.w.log[i] == Fired(id, DueTick(q), q.cb) && DueTick(q) <= t.w.now)
  }

  ghost predicate Good(t: Traced) {
    Inv(t.w) && Ledger(t)
  }

  const Start: Traced := Traced(Init(), map[], {})

  lemma StartGood()
    ensures Good(Start)
  {
    InitInv();
  }

  lemma GoodWellFormed(t: Traced)
    requires Good(t)
    ensures WellFormed(t.w) && 1 <= t.w.nextId
  {
  }

  lemma AddLedger(t: Traced, r: Traced, q: Request)
    requires Ledger(t) && 1 <= t.w.nextId && t.w.nextId !in Flat(t.w) && q.tick == t.w.now
    requires r.requests == t.requests[t.w.nextId := q] && r.cancelled == t.cancelled
    requires r.w.now == t.w.now && r.w.nextId == t.w.nextId + 1 && r.w.log == t.w.log
    requires Flat(r.w) == Flat(t.w)[t.w.nextId := Timer(DueTick(q), q.cb)]
    ensures Ledger(r)
  {
    assert t.w.nextId !in t.requests && !HasFired(t.w.log, t.w.nextId);
    forall id | id in r.requests ensures Booked(r, id) {
      if id != t.w.nextId {
        assert Booked(t, id);
      }
    }
  }

  lemma AddGood(t: Traced, delayMs: nat, cb: Callback)
    requires Good(t)
    ensures Good(TracedApply(t, DoAdd(delayMs, cb)))
  {
    hide Inv, Add, WellFormed, Flat, EffectiveTicks;
    GoodWellFormed(t);
    AddRefines(t.w, delayMs, cb);
    AddLedger(t, TracedApply(t, DoAdd(delayMs, cb)), Request(t.w.now, delayMs, cb));
  }

  lemma CancelGood(t: Traced, id: nat)
    requires Good(t)
    ensures Good(TracedApply(t, DoCancel(id)))
  {
    hide Inv;
    GoodWellFormed(t);
    CancelRefines(t.w, id);
    var r := TracedApply(t, DoCancel(id));
    forall x | x in r.requests ensures Booked(r, x) {
      assert Booked(t, x);
    }
  }

  lemma TickGood(t: Traced)
    requires Good(t) && t.w.firing == []
    ensures Good(TracedApply(t, DoTick))
  {
    hide Inv;
    GoodWellFormed(t);
    StartTickRefines(t.w);
    var r := TracedApply(t, DoTick);
    NothingOverdue(r.w);
    forall x | x in r.requests ensures Booked(r, x) {
      assert Booked(t, x);
    }
  }

  lemma FireBooked(t: Traced, r: Traced, id: nat, x: nat)
    requires Ledger(t) && id in t.requests && x in t.requests
    requires r.requests == t.requests && r.cancelled == t.cancelled && r.w.now == t.w.now
    requires Flat(r.w) == Flat(t.w) - {id}
    requires id in Flat(t.w) ==>
      Flat(t.w)[id].expiry == t.w.now && r.w.log == t.w.log + [Fired(id, t.w.now, Flat(t.w)[id].cb)]
    requires id !in Flat(t.w) ==> r.w.log == t.w.log
    ensures Booked(r, x)
  {
    assert Booked(t, x);
    if id in Flat(t.w) {
      assert Booked(t, id);
      var n := |t.w.log|;
      assert r.w.log[n].id == id;
      assert forall i | 0 <= i < n :: r.w.log[i] == t.w.log[i];
      assert HasFired(r.w.log, x) <==> HasFired(t.w.log, x) || x == id by {
        if HasFired(t.w.log, x) {
          var i :| 0 <= i < n && t.w.log[i].id == x;
          assert r.w.log[i].id == x;
        }
      }
    }
  }

  lemma FireLedger(t: Traced, r: Traced, id: nat)
    requires Ledger(t) && id in t.requests
    requires r.requests == t.requests && r.cancelled == t.cancelled
    requires r.w.now == t.w.now && r.w.nextId == t.w.nextId
    requires Flat(r.w) == Flat(t.w) - {id}
    requires id in Flat(t.w) ==>
      Flat(t.w)[id].expiry == t.w.now && r.w.log == t.w.log + [Fired(id, t.w.now, Flat(t.w)[id].cb)]
    requires id !in Flat(t.w) ==> r.w.log == t.w.log
    ensures Ledger(r)
  {
    forall x | x in r.requests ensures Booked(r, x) {
      FireBooked(t, r, id, x);
    }
    if id in Flat(t.w) {
      assert Booked(t, id);
    }
  }

  lemma FireGood(t: Traced)
    requires Good(t) && t.w.firing != []
    ensures Good(TracedApply(t, DoFire))
  {
    FireNextRefines(t.w);
    assert t.w.firing[0] in t.w.firing;
    FireLedger(t, TracedApply(t, DoFire), t.w.firing[0]);
  }

  /** Every reachable state keeps the invariant and balances the books. */
  lemma {:induction false} RunGood(t: Traced, steps: seq<Step>)
    requires WellFormed(t.w) && Good(t) && ValidRun(t, steps)
    ensures Good(After(t, steps))
    decreases |steps|
  {
    if steps != [] {
      hide Good, TracedApply;
      StepGood(t, steps[0]);
      RunGood(TracedApply(t, steps[0]), steps[1..]);
    }
  }

  lemma StepGood(t: Traced, s: Step)
    requires WellFormed(t.w) && Good(t) && Enabled(t.w, s)
    ensures Good(TracedApply(t, s))
  {
    hide Good, TracedApply, WellFormed;
    match s {
      case DoAdd(d, cb) => AddGood(t, d, cb);
      case DoCancel(id) => CancelGood(t, id);
      case DoTick => TickGood(t);
      case DoFire => FireGood(t);
    }
  }

  /** Fired exactly once, at its due tick, with its own callback. */
  ghost predicate FiredOnceOnTime(log: seq<Fired>, id: nat, q: Request) {
    exists i | 0 <= i < |log| ::
      && log[i] == Fired(id, DueTick(q), q.cb)
      && (forall j | 0 <= j < |log| && log[j].id == id :: j == i)
  }

  lemma GoodIsOnTime(t: Traced, id: nat)
    requires Good(t) && t.w.firing == [] && id in t.requests
    ensures
      var q := t.requests[id];
      if id !in t.cancelled && DueTick(q) <= t.w.now then FiredOnceOnTime(t.w.log, id, q)
      else !HasFired(t.w.log, id)
  {
    hide Inv;
    NothingOverdue(t.w);
    assert Booked(t, id);
    if HasFired(t.w.log, id) {
      var i :| 0 <= i < |t.w.log| && t.w.log[i].id == id;
      assert t.w.log[i] == Fired(id, DueTick(t.requests[id]), t.requests[id].cb);
    }
  }

  /**
   Main theorem.  After any run from the start that is not in the middle of a tick, for
   every timer ever requested: once its due tick is reached and it was not cancelled
   before, it has fired exactly once, at that tick, with its own callback; a cancelled
   one never fires, and none fires early.
   */
  lemma EveryTimerFiresExactlyOnceOnTime(steps: seq<Step>, id: nat)
    requires ValidRun(Start, steps)
    requires After(Start, steps).w.firing == [] && id in After(Start, steps).requests
    ensures
      var t := After(Start, steps);
      var q := t.requests[id];
      if id !in t.cancelled && DueTick(q) <= t.w.now then FiredOnceOnTime(t.w.log, id, q)
      else !HasFired(t.w.log, id)
  {
    StartGood();
    assert WellFormed(Start.w);
    hide *;
    RunGood(Start, steps);
    GoodIsOnTime(After(Start, steps), id);
  }

  lemma RoundedUp(delayMs: nat)
    ensures Ticks(delayMs) >= 1 && delayMs <= Ticks(delayMs) * TICK_MS
    ensures delayMs > 0 ==> (Ticks(delayMs) - 1) * TICK_MS < delayMs
  {
  }

  /**
   When a delay is honoured.  After any run, for a timer that was not cancelled and whose
   due tick has come, the log shows it fired at the tick it asked for if and only if the
   delay is under 4096 ticks; a longer delay fires at +4095, that is too early, and at no
   other tick.  A delay in milliseconds is rounded up to ticks, and is at least one.
   */
  lemma DelayHonouredIff(steps: seq<Step>, id: nat)
    requires ValidRun(Start, steps)
    requires After(Start, steps).w.firing == [] && id in After(Start, steps).requests
    requires id !in After(Start, steps).cancelled
    requires DueTick(After(Start, steps).requests[id]) <= After(Start, steps).w.now
    ensures
      var t := After(Start, steps);
      var q := t.requests[id];
      && (Fired(id, q.tick + Ticks(q.delayMs), q.cb) in t.w.log <==> Ticks(q.delayMs) < SPAN)
      && (Ticks(q.delayMs) >= SPAN ==> Fired(id, q.tick + 4095, q.cb) in t.w.log)
      && (forall f | f in t.w.log && f.id == id :: f.tick <= q.tick + Ticks(q.delayMs))
      && Ticks(q.delayMs) >= 1 && q.delayMs <= Ticks(q.delayMs) * TICK_MS
      && (q.delayMs > 0 ==> (Ticks(q.delayMs) - 1) * TICK_MS < q.delayMs)
  {
    hide ValidRun, After, Ticks;
    EveryTimerFiresExactlyOnceOnTime(steps, id);
    var t := After(Start, steps);
    var q := t.requests[id];
    RoundedUp(q.delayMs);
    var i :| 0 <= i < |t.w.log| && t.w.log[i] == Fired(id, DueTick(q), q.cb)
      && (forall j | 0 <= j < |t.w.log| && t.w.log[j].id == id :: j == i);
    forall f | f in t.w.log && f.id == id ensures f == Fired(id, DueTick(q), q.cb) {
      var j :| 0 <= j < |t.w.log| && t.w.log[j] == f;
    }
    assert t.w.log[i] in t.w.log;
  }

  // ---------------------------------------------------------------- advance

  /** What a callback may do to the wheel. */
  datatype Op = OpAdd(delayMs: nat, cb: Callback) | OpCancel(id: nat)

  /** An arbitrary behaviour of all callbacks: what the callback of timer `id` does when it
      starts at tick `tick`. */
  type React = (nat, nat) -> seq<Op>

  function ApplyOp(w: Wheel, op: Op): (r: Wheel)
    requires WellFormed(w)
    ensures WellFormed(r)
  {
    match op
    case OpAdd(d, cb) => Add(w, d, cb)
    case OpCancel(id) => Cancel(w, id)
  }

  function ApplyOps(w: Wheel, ops: seq<Op>): (r: Wheel)
    requires WellFormed(w)
    ensures WellFormed(r) && r.firing == w.firing && r.now == w.now && r.remainderMs == w.remainderMs
    decreases |ops|
  {
    if ops == [] then w else ApplyOps(ApplyOp(w, ops[0]), ops[1..])
  }

  /** One node of the slot in progress, with its callback. */
  function FireOne(w: Wheel, react: React): (r: Wheel)
    requires WellFormed(w) && w.firing != []
    ensures WellFormed(r) && r.firing == w.firing[1..] && r.now == w.now
    ensures r.remainderMs == w.remainderMs
  {
    var w1 := FireNext(w);
    if w.nodes[w.firing[0]].canceled then w1 else ApplyOps(w1, react(w.firing[0], w.now))
  }

  function FireAll(w: Wheel, react: React): (r: Wheel)
    requires WellFormed(w)
    ensures WellFormed(r) && r.firing == [] && r.now == w.now && r.remainderMs == w.remainderMs
    decreases |w.firing|
  {
    if w.firing == [] then w else FireAll(FireOne(w, react), react)
  }

  function Tick(w: Wheel, react: React): (r: Wheel)
    requires WellFormed(w) && w.firing == []
    ensures WellFormed(r) && r.firing == [] && r.now == w.now + 1 && r.remainderMs == w.remainderMs
  {
    FireAll(StartTick(w), react)
  }

  function TickN(w: Wheel, n: nat, react: React): (r: Wheel)
    requires WellFormed(w) && w.firing == []
    ensures WellFormed(r) && r.firing == [] && r.now == w.now + n && r.remainderMs == w.remainderMs
    decreases n
  {
    if n == 0 then w else TickN(Tick(w, react), n - 1, react)
  }

  function WholeTicks(ms: nat): nat { ms / TICK_MS }

  function LeftOver(ms: nat): nat { ms % TICK_MS }

  function Advance(w: Wheel, elapsedMs: nat, react: React): (r: Wheel)
    requires WellFormed(w) && w.firing == []
    ensures WellFormed(r) && r.firing == []
  {
    var total := w.remainderMs + elapsedMs;
    TickN(w.(remainderMs := LeftOver(total)), WholeTicks(total), react)
  }

  // The remainder takes no part in a tick.

  lemma RemainderWellFormed(w: Wheel, r: nat)
    requires WellFormed(w)
    ensures WellFormed(w.(remainderMs := r))
  {
  }

  lemma PlaceRemainder(w: Wheel, id: nat, r: nat)
    requires WellFormed(w) && id in w.nodes
    ensures WellFormed(w.(remainderMs := r))
    ensures Place(w.(remainderMs := r), id) == Place(w, id).(remainderMs := r)
  {
  }

  lemma {:induction false} CascadeRemainder(w: Wheel, list: seq<nat>, r: nat)
    requires WellFormed(w) && forall id | id in list :: id in w.nodes
    ensures Cascade(w.(remainderMs := r), list) == Cascade(w, list).(remainderMs := r)
    decreases |list|
  {
    if list != [] {
      PlaceRemainder(w, list[0], r);
      RemainderWellFormed(w, r);
      var w1 := if w.nodes[list[0]].canceled then w else Place(w, list[0]);
      hide WellFormed, Place;
      CascadeRemainder(w1, list[1..], r);
    }
  }

  lemma StartTickRemainder(w: Wheel, r: nat)
    requires WellFormed(w)
    ensures StartTick(w.(remainderMs := r)) == StartTick(w).(remainderMs := r)
  {
    hide Cascade;
    var w1 := w.(now := w.now + 1);
    if w1.now % SLOTS == 0 {
      var s := (w1.now / SLOTS) % SLOTS;
      CascadeRemainder(w1.(l1 := w1.l1[s := []]), w1.l1[s], r);
    }
  }

  lemma AddRemainder(w: Wheel, delayMs: nat, cb: Callback, r: nat)
    requires WellFormed(w) && WellFormed(w.(remainderMs := r))
    ensures Add(w.(remainderMs := r), delayMs, cb) == Add(w, delayMs, cb).(remainderMs := r)
  {
    hide WellFormed;
  }

  lemma ApplyOpRemainder(w: Wheel, op: Op, r: nat)
    requires WellFormed(w) && WellFormed(w.(remainderMs := r))
    ensures ApplyOp(w.(remainderMs := r), op) == ApplyOp(w, op).(remainderMs := r)
  {
    hide WellFormed, Add;
    if op.OpAdd? {
      AddRemainder(w, op.delayMs, op.cb, r);
    }
  }

  lemma {:induction false} ApplyOpsRemainder(w: Wheel, ops: seq<Op>, r: nat)
    requires WellFormed(w)
    ensures ApplyOps(w.(remainderMs := r), ops) == ApplyOps(w, ops).(remainderMs := r)
    decreases |ops|
  {
    if ops != [] {
      RemainderWellFormed(w, r);
      hide ApplyOp, WellFormed;
      ApplyOpRemainder(w, ops[0], r);
      ApplyOpsRemainder(ApplyOp(w, ops[0]), ops[1..], r);
    }
  }

  lemma {:induction false} FireAllRemainder(w: Wheel, react: React, r: nat)
    requires WellFormed(w)
    ensures FireAll(w.(remainderMs := r), react) == FireAll(w, react).(remainderMs := r)
    decreases |w.firing|
  {
    if w.firing != [] {
      ApplyOpsRemainder(FireNext(w), react(w.firing[0], w.now), r);
      assert FireOne(w.(remainderMs := r), react) == FireOne(w, react).(remainderMs := r);
      FireAllRemainder(FireOne(w, react), react, r);
    }
  }

  lemma {:induction false} TickNRemainder(w: Wheel, n: nat, react: React, r: nat)
    requires WellFormed(w) && w.firing == []
    ensures TickN(w.(remainderMs := r), n, react) == TickN(w, n, react).(remainderMs := r)
    decreases n
  {
    hide WellFormed, StartTick, FireAll;
    if n != 0 {
      StartTickRemainder(w, r);
      FireAllRemainder(StartTick(w), react, r);
      TickNRemainder(Tick(w, react), n - 1, react, r);
    }
  }

  lemma {:induction false} TickNSplit(w: Wheel, m: nat, n: nat, react: React)
    requires WellFormed(w) && w.firing == []
    ensures TickN(TickN(w, m, react), n, react) == TickN(w, m + n, react)
    decreases m
  {
    hide WellFormed, Tick;
    if m != 0 {
      TickNSplit(Tick(w, react), m - 1, n, react);
    }
  }

  lemma ElapsedSplit(r: nat, a: nat, b: nat)
    ensures WholeTicks(r + a) + WholeTicks(LeftOver(r + a) + b) == WholeTicks(r + a + b)
    ensures LeftOver(LeftOver(r + a) + b) == LeftOver(r + a + b)
  {
  }

  lemma TicksSplit(w: Wheel, m: nat, n: nat, r1: nat, r2: nat, react: React)
    requires WellFormed(w) && w.firing == []
    ensures WellFormed(w.(remainderMs := r1)) && WellFormed(w.(remainderMs := r2))
    ensures
      var w1 := TickN(w.(remainderMs := r1), m, react);
      WellFormed(w1.(remainderMs := r2)) &&
      TickN(w1.(remainderMs := r2), n, react) == TickN(w.(remainderMs := r2), m + n, react)
  {
    hide TickN, WellFormed;
    RemainderWellFormed(w, r1);
    RemainderWellFormed(w, r2);
    TickNRemainder(w, m, react, r1);
    TickNRemainder(w, m, react, r2);
    TickNSplit(w.(remainderMs := r2), m, n, react);
  }

  /** Feeding in time in two parts, or all at once, gives the same wheel: the same timers,
      the same slots, the same callbacks at the same ticks in the same order. */
  lemma AdvanceSplit(w: Wheel, a: nat, b: nat, react: React)
    requires WellFormed(w) && w.firing == []
    ensures Advance(Advance(w, a, react), b, react) == Advance(w, a + b, react)
  {
    hide TickN, WellFormed, WholeTicks, LeftOver;
    var r := w.remainderMs;
    var m, n := WholeTicks(r + a), WholeTicks(LeftOver(r + a) + b);
    var r1, r2 := LeftOver(r + a), LeftOver(r + a + b);
    RemainderWellFormed(w, r1);
    RemainderWellFormed(w, r2);
    ElapsedSplit(r, a, b);
    TicksSplit(w, m, n, r1, r2, react);
  }

  // ---------------------------------------------------------------- a delay beyond the span

  lemma QuietStep(t: Traced, s: Step)
    requires WellFormed(t.w) && Enabled(t.w, s) && (s == DoTick || s == DoFire)
    ensures
      var r := TracedApply(t, s);
      && r.requests == t.requests && r.cancelled == t.cancelled
      && r.w.now == t.w.now + (if s == DoTick then 1 else 0)
      && (s == DoFire ==> r.w.firing == t.w.firing[1..])
  {
    hide CascadeSlot;
  }

  /** Nobody adds or cancels for `n` ticks. */
  lemma {:induction false} JustWait(t: Traced, n: nat) returns (steps: seq<Step>)
    requires WellFormed(t.w)
    ensures ValidRun(t, steps)
    ensures
      var r := After(t, steps);
      r.w.now == t.w.now + n && r.w.firing == [] && r.requests == t.requests && r.cancelled == t.cancelled
    decreases n, |t.w.firing|
  {
    hide WellFormed, TracedApply;
    if n == 0 && t.w.firing == [] {
      steps := [];
    } else {
      var s := if t.w.firing == [] then DoTick else DoFire;
      QuietStep(t, s);
      var rest := JustWait(TracedApply(t, s), if t.w.firing == [] then n - 1 else n);
      steps := [s] + rest;
      assert steps[0] == s && steps[1..] == rest;
    }
  }

  lemma FirstRequest(delayMs: nat, cb: Callback) returns (t: Traced)
    ensures WellFormed(Start.w) && t == TracedApply(Start, DoAdd(delayMs, cb))
    ensures t.requests == map[1 := Request(0, delayMs, cb)] && t.cancelled == {} && t.w.now == 0
  {
    StartGood();
    GoodWellFormed(Start);
    AddRefines(Start.w, delayMs, cb);
    hide WellFormed, Inv, Add;
    t := TracedApply(Start, DoAdd(delayMs, cb));
  }

  /** A timer asked for 4096 ticks or more, in a wheel where nothing else happens, has fired
      after 4095 ticks. */
  lemma LongDelayFiresEarly(delayMs: nat, cb: Callback) returns (steps: seq<Step>)
    requires Ticks(delayMs) >= SPAN
    ensures ValidRun(Start, steps)
    ensures
      var t := After(Start, steps);
      t.w.now == 4095 && t.requests == map[1 := Request(0, delayMs, cb)] && Fired(1, 4095, cb) in t.w.log
  {
    hide WellFormed, TracedApply, Ticks, Start;
    var t1 := FirstRequest(delayMs, cb);
    var rest := JustWait(t1, 4095);
    steps := [DoAdd(delayMs, cb)] + rest;
    assert steps[0] == DoAdd(delayMs, cb) && steps[1..] == rest;
    assert After(Start, steps) == After(t1, rest);
    assert DueTick(Request(0, delayMs, cb)) == 4095;
    hide ValidRun, After, DueTick;
    DelayHonouredIff(steps, 1);
  }
}
