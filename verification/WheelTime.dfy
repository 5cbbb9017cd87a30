/**
 The wheel in milliseconds: how far an elapsed time moves it, and when its timers fire on the
 clock of whoever feeds it time, whatever its callbacks do meanwhile.
 */
module WheelTime {
  import opened WheelModel
  import opened WheelRuns

  // ---------------------------------------------------------------- an advance, step by step

  function AsStep(op: Op): Step {
    match op
    case OpAdd(d, cb) => DoAdd(d, cb)
    case OpCancel(id) => DoCancel(id)
  }

  function TracedOps(t: Traced, ops: seq<Op>): (r: Traced)
    requires WellFormed(t.w)
    ensures r.w == ApplyOps(t.w, ops)
    decreases |ops|
  {
    if ops == [] then t else TracedOps(TracedApply(t, AsStep(ops[0])), ops[1..])
  }

  function TracedFireOne(t: Traced, react: React): (r: Traced)
    requires WellFormed(t.w) && t.w.firing != []
    ensures r.w == FireOne(t.w, react)
  {
    var t1 := TracedApply(t, DoFire);
    if t.w.nodes[t.w.firing[0]].canceled then t1 else TracedOps(t1, react(t.w.firing[0], t.w.now))
  }

  function TracedFireAll(t: Traced, react: React): (r: Traced)
    requires WellFormed(t.w)
    ensures r.w == FireAll(t.w, react)
    decreases |t.w.firing|
  {
    if t.w.firing == [] then t else TracedFireAll(TracedFireOne(t, react), react)
  }

  function TracedTickN(t: Traced, n: nat, react: React): (r: Traced)
    requires WellFormed(t.w) && t.w.firing == []
    ensures r.w == TickN(t.w, n, react)
    decreases n
  {
    if n == 0 then t else TracedTickN(TracedFireAll(TracedApply(t, DoTick), react), n - 1, react)
  }

  function WithRemainder(t: Traced, r: nat): Traced {
    t.(w := t.w.(remainderMs := r))
  }

  lemma RemainderFits(t: Traced, r: nat)
    requires WellFormed(t.w)
    ensures WellFormed(WithRemainder(t, r).w) && WithRemainder(t, r).w.firing == t.w.firing
  {
    hide WellFormed;
    RemainderWellFormed(t.w, r);
  }

  /** An advance with what the callbacks did in it on the books. */
  function TracedAdvance(t: Traced, elapsedMs: nat, react: React): Traced
    requires WellFormed(t.w) && t.w.firing == []
  {
    var total := t.w.remainderMs + elapsedMs;
    RemainderFits(t, LeftOver(total));
    TracedTickN(WithRemainder(t, LeftOver(total)), WholeTicks(total), react)
  }

  lemma TracedAdvances(t: Traced, elapsedMs: nat, react: React)
    requires WellFormed(t.w) && t.w.firing == []
    ensures TracedAdvance(t, elapsedMs, react).w == Advance(t.w, elapsedMs, react)
  {
    hide WellFormed, TickN, TracedTickN;
    RemainderFits(t, LeftOver(t.w.remainderMs + elapsedMs));
  }

  // ---------------------------------------------------------------- what every advance keeps

  /** Requests and cancellations on the books stay there. */
  ghost predicate Remembers(t: Traced, t': Traced) {
    && (forall id | id in t.requests :: id in t'.requests && t'.requests[id] == t.requests[id])
    && t.cancelled <= t'.cancelled
  }

  /** The books balance and nothing on them is changed. */
  ghost predicate GoesWell(t: Traced, t': Traced) {
    Good(t') && Remembers(t, t')
  }

  lemma GoesWellTwice(t: Traced, t1: Traced, t2: Traced)
    requires GoesWell(t, t1) && GoesWell(t1, t2)
    ensures GoesWell(t, t2)
  {
    hide Good;
  }

  lemma StepGoesWell(t: Traced, s: Step)
    requires WellFormed(t.w) && Good(t) && Enabled(t.w, s)
    ensures GoesWell(t, TracedApply(t, s))
  {
    hide Good, Apply, WellFormed;
    StepGood(t, s);
    NextIsFree(t);
  }

  lemma NextIsFree(t: Traced)
    requires Good(t)
    ensures t.w.nextId !in t.requests
  {
    hide Inv, Booked;
  }

  lemma HeadIsNode(w: Wheel)
    requires WellFormed(w) && w.firing != []
    ensures w.firing[0] in w.nodes
  {
  }

  lemma {:induction false} OpsGoWell(t: Traced, ops: seq<Op>)
    requires WellFormed(t.w) && Good(t)
    ensures GoesWell(t, TracedOps(t, ops))
    decreases |ops|
  {
    hide GoesWell, WellFormed, TracedApply;
    if ops == [] {
      StaysWell(t);
    } else {
      var t1 := TracedApply(t, AsStep(ops[0]));
      StepGoesWell(t, AsStep(ops[0]));
      WellIsGood(t, t1);
      OpsGoWell(t1, ops[1..]);
      GoesWellTwice(t, t1, TracedOps(t1, ops[1..]));
    }
  }

  lemma StaysWell(t: Traced)
    requires Good(t)
    ensures GoesWell(t, t)
  {
    hide Good;
  }

  lemma WellIsGood(t: Traced, t': Traced)
    requires GoesWell(t, t')
    ensures Good(t')
  {
    hide Good;
  }

  lemma FireOneGoesWell(t: Traced, react: React)
    requires WellFormed(t.w) && Good(t) && t.w.firing != []
    ensures GoesWell(t, TracedFireOne(t, react))
  {
    hide GoesWell, WellFormed, TracedApply, TracedOps, Good;
    HeadIsNode(t.w);
    var t1 := TracedApply(t, DoFire);
    StepGoesWell(t, DoFire);
    WellIsGood(t, t1);
    if !t.w.nodes[t.w.firing[0]].canceled {
      var ops := react(t.w.firing[0], t.w.now);
      OpsGoWell(t1, ops);
      GoesWellTwice(t, t1, TracedOps(t1, ops));
    }
  }

  lemma {:induction false} FireAllGoesWell(t: Traced, react: React)
    requires WellFormed(t.w) && Good(t)
    ensures GoesWell(t, TracedFireAll(t, react))
    decreases |t.w.firing|
  {
    hide GoesWell, WellFormed, TracedFireOne, FireOne, Good;
    if t.w.firing == [] {
      StaysWell(t);
    } else {
      var t1 := TracedFireOne(t, react);
      FireOneGoesWell(t, react);
      WellIsGood(t, t1);
      FireAllGoesWell(t1, react);
      GoesWellTwice(t, t1, TracedFireAll(t1, react));
    }
  }

  lemma {:induction false} TicksGoWell(t: Traced, n: nat, react: React)
    requires WellFormed(t.w) && Good(t) && t.w.firing == []
    ensures GoesWell(t, TracedTickN(t, n, react))
    decreases n
  {
    hide GoesWell, WellFormed, TracedFireAll, TracedApply, Good, FireAll, StartTick;
    if n == 0 {
      StaysWell(t);
    } else {
      var t1 := TracedApply(t, DoTick);
      StepGoesWell(t, DoTick);
      WellIsGood(t, t1);
      var t2 := TracedFireAll(t1, react);
      FireAllGoesWell(t1, react);
      WellIsGood(t1, t2);
      GoesWellTwice(t, t1, t2);
      TicksGoWell(t2, n - 1, react);
      GoesWellTwice(t, t2, TracedTickN(t2, n - 1, react));
    }
  }

  lemma RemainderGood(t: Traced, r: nat)
    requires Good(t)
    ensures GoesWell(t, WithRemainder(t, r))
  {
    var t0 := WithRemainder(t, r);
    assert Flat(t0.w) == Flat(t.w);
    forall id | id in t0.requests ensures Booked(t0, id) {
      assert Booked(t, id);
    }
    assert OnePlace(t0.w, []) by {
      assert forall id | id in t.w.alive :: In0(t0.w, id) == In0(t.w, id) && In1(t0.w, id) == In1(t.w, id);
    }
  }

  /** `advance`, with callbacks that do anything at all, keeps the invariant and the books
      balanced. */
  lemma AdvanceGood(t: Traced, elapsedMs: nat, react: React)
    requires Good(t) && t.w.firing == [] && WellFormed(t.w)
    ensures GoesWell(t, TracedAdvance(t, elapsedMs, react))
  {
    hide GoesWell, WellFormed, TracedTickN, TickN, Good, WholeTicks, LeftOver;
    var total := t.w.remainderMs + elapsedMs;
    var t0 := WithRemainder(t, LeftOver(total));
    RemainderGood(t, LeftOver(total));
    WellIsGood(t, t0);
    RemainderFits(t, LeftOver(total));
    TicksGoWell(t0, WholeTicks(total), react);
    GoesWellTwice(t, t0, TracedAdvance(t, elapsedMs, react));
  }

  // ---------------------------------------------------------------- milliseconds

  /** No time is lost or gained: a tick is 100 ms, and what is left over is kept. */
  lemma AdvanceKeepsTime(w: Wheel, elapsedMs: nat, react: React)
    requires WellFormed(w) && w.firing == []
    ensures
      var r := Advance(w, elapsedMs, react);
      100 * r.now + r.remainderMs == 100 * w.now + w.remainderMs + elapsedMs && r.remainderMs < 100
  {
    hide WellFormed, TickN;
    RemainderWellFormed(w, LeftOver(w.remainderMs + elapsedMs));
  }

  /** What its owner does with a wheel: set a timer, revoke one, or feed it time while its
      callbacks do what they like. */
  datatype Call = Set(delayMs: nat, cb: Callback) | Revoke(id: nat) | Elapse(ms: nat, react: React)

  function Do(t: Traced, c: Call): Traced
    requires WellFormed(t.w) && t.w.firing == []
  {
    match c
    case Set(d, cb) => TracedApply(t, DoAdd(d, cb))
    case Revoke(id) => TracedApply(t, DoCancel(id))
    case Elapse(ms, react) => TracedAdvance(t, ms, react)
  }

  ghost predicate Between(t: Traced) {
    WellFormed(t.w) && t.w.firing == [] && Good(t)
  }

  lemma DoGoesWell(t: Traced, c: Call)
    requires Between(t)
    ensures Between(Do(t, c)) && GoesWell(t, Do(t, c))
    ensures
      var r := Do(t, c);
      100 * r.w.now + r.w.remainderMs == 100 * t.w.now + t.w.remainderMs + (if c.Elapse? then c.ms else 0)
      && (t.w.remainderMs < 100 ==> r.w.remainderMs < 100)
  {
    hide Good, GoesWell, WellFormed, TracedAdvance, Advance;
    match c {
      case Set(d, cb) =>
        StepGoesWell(t, DoAdd(d, cb));
        GoodIsInv(t);
        AddRefines(t.w, d, cb);
      case Revoke(id) =>
        StepGoesWell(t, DoCancel(id));
        GoodIsInv(t);
        CancelRefines(t.w, id);
      case Elapse(ms, react) =>
        AdvanceGood(t, ms, react);
        TracedAdvances(t, ms, react);
        AdvanceKeepsTime(t.w, ms, react);
    }
    WellIsGood(t, Do(t, c));
  }

  lemma GoodIsInv(t: Traced)
    requires Good(t)
    ensures Inv(t.w)
  {
    hide Inv;
  }

  ghost function Begin(): (t: Traced)
    ensures Between(t) && t.w.now == 0 && t.w.remainderMs == 0
  {
    StartGood();
    Start
  }

  ghost function Did(t: Traced, c: Call): (r: Traced)
    requires Between(t)
    ensures Between(r)
  {
    DoGoesWell(t, c);
    Do(t, c)
  }

  ghost function DidAll(t: Traced, cs: seq<Call>): (r: Traced)
    requires Between(t)
    ensures Between(r)
    decreases |cs|
  {
    if cs == [] then t else DidAll(Did(t, cs[0]), cs[1..])
  }

  /** All the time fed in. */
  function Elapsed(cs: seq<Call>): nat {
    if cs == [] then 0 else (if cs[0].Elapse? then cs[0].ms else 0) + Elapsed(cs[1..])
  }

  lemma {:induction false} AllGoesWell(t: Traced, cs: seq<Call>)
    requires Between(t) && t.w.remainderMs < 100
    ensures
      var r := DidAll(t, cs);
      && GoesWell(t, r)
      && 100 * r.w.now + r.w.remainderMs == 100 * t.w.now + t.w.remainderMs + Elapsed(cs) && r.w.remainderMs < 100
    decreases |cs|
  {
    if cs == [] {
      StaysWell(t);
    } else {
      hide Between, GoesWell, Do;
      DoGoesWell(t, cs[0]);
      var t1 := Did(t, cs[0]);
      AllGoesWell(t1, cs[1..]);
      GoesWellTwice(t, t1, DidAll(t1, cs[1..]));
    }
  }

  /** A delay rounded up to whole ticks of 100 ms, at least one. */
  function RoundedMs(delayMs: nat): nat {
    if delayMs == 0 then 100 else (delayMs + 99) / 100 * 100
  }

  lemma RoundedIsTicks(delayMs: nat)
    ensures RoundedMs(delayMs) == 100 * Ticks(delayMs)
  {
  }

  /**
   Timers on the clock.  Set a timer of `delayMs` after any calls, make any further calls, and
   suppose it was not cancelled and its delay is under 4096 ticks.  It has fired if and only
   if the clock, read in whole ticks, has moved on by the delay rounded up since the timer was
   set: at the latest once that much time has elapsed, and never 100 ms or more before.
   */
  lemma TimersKeepTime(before: seq<Call>, delayMs: nat, cb: Callback, after: seq<Call>)
    ensures
      var t0 := DidAll(Begin(), before);
      var id, t := t0.w.nextId, DidAll(Did(t0, Set(delayMs, cb)), after);
      var from, to := Elapsed(before), Elapsed(before) + Elapsed(after);
      RoundedMs(delayMs) < 409600 && id !in t.cancelled ==>
        && (HasFired(t.w.log, id) <==> from / 100 * 100 + RoundedMs(delayMs) <= to / 100 * 100)
        && (Elapsed(after) >= RoundedMs(delayMs) ==> HasFired(t.w.log, id))
        && (Elapsed(after) + 100 <= RoundedMs(delayMs) ==> !HasFired(t.w.log, id))
  {
    hide DidAll, Between, Elapsed, Ticks, RoundedMs, GoesWell;
    var t0 := DidAll(Begin(), before);
    var t1 := Did(t0, Set(delayMs, cb));
    var id, t := t0.w.nextId, DidAll(t1, after);
    AllGoesWell(Begin(), before);
    SetIsBooked(t0, delayMs, cb);
    hide Did, Begin;
    AllGoesWell(t1, after);
    RoundedIsTicks(delayMs);
    if RoundedMs(delayMs) < 409600 && id !in t.cancelled {
      FiredInTime(t1, t, id);
      ClockReads(Elapsed(before), t0.w.now, t0.w.remainderMs, Elapsed(after), t.w.now, t.w.remainderMs,
        RoundedMs(delayMs));
    }
  }

  lemma SetIsBooked(t: Traced, delayMs: nat, cb: Callback)
    requires Between(t) && t.w.remainderMs < 100
    ensures
      var r := Did(t, Set(delayMs, cb));
      && t.w.nextId in r.requests && r.requests[t.w.nextId] == Request(t.w.now, delayMs, cb)
      && r.w.now == t.w.now && r.w.remainderMs == t.w.remainderMs
  {
    hide Good, WellFormed, Add;
    GoodIsInv(t);
    AddRefines(t.w, delayMs, cb);
  }

  /** Ticks and milliseconds. */
  lemma ClockReads(from: nat, n: nat, r: nat, passed: nat, n': nat, r': nat, due: nat)
    requires 100 * n + r == from && r < 100 && 100 * n' + r' == from + passed && r' < 100 && due % 100 == 0
    ensures n + due / 100 <= n' <==> from / 100 * 100 + due <= (from + passed) / 100 * 100
    ensures passed >= due ==> n + due / 100 <= n'
    ensures passed + 100 <= due ==> !(n + due / 100 <= n')
  {
    assert from / 100 == n && (from + passed) / 100 == n';
  }

  lemma FiredInTime(t: Traced, t': Traced, id: nat)
    requires Between(t') && GoesWell(t, t') && id in t.requests && id !in t'.cancelled
    requires Ticks(t.requests[id].delayMs) < SPAN
    ensures HasFired(t'.w.log, id) <==> t.requests[id].tick + Ticks(t.requests[id].delayMs) <= t'.w.now
  {
    hide Good, WellFormed, Ticks;
    GoodIsOnTime(t', id);
  }
}
