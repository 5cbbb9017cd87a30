/**
 The timer wheel as it is programmed: slots in two fixed arrays, updated in place by
 nested loops.  Each method is proved to compute the function of `WheelModel` and
 `WheelRuns` about which the theorems are stated.
 */
module TimerWheel {
  import opened WheelModel
  import opened WheelRuns

  class TimerWheel {
    var nowTick: nat
    var remainderMs: nat
    var nextId: nat
    var nodes: map<nat, Node>
    const l0: array<seq<nat>>
    const l1: array<seq<nat>>
    var alive: set<nat>
    var log: seq<Fired>
    /** What the slot being fired still holds. */
    ghost var firing: seq<nat>

    ghost function State(): Wheel
      reads this, l0, l1
    {
      Wheel(nowTick, remainderMs, nextId, nodes, l0[..], l1[..], alive, firing, log)
    }

    ghost predicate Valid()
      reads this, l0, l1
    {
      l0 != l1 && WellFormed(State())
    }

    constructor ()
      ensures Valid() && State() == Init()
      ensures fresh(l0) && fresh(l1)
    {
      nowTick, remainderMs, nextId, nodes, alive, log, firing := 0, 0, 1, map[], {}, [], [];
      l0 := new seq<nat>[SLOTS](_ => []);
      l1 := new seq<nat>[SLOTS](_ => []);
      new;
      assert l0[..] == seq(SLOTS, _ => []);
      assert l1[..] == seq(SLOTS, _ => []);
    }

    method Place(id: nat)
      requires Valid() && id in nodes
      modifies this`nodes, l0, l1
      ensures Valid() && State() == WheelModel.Place(old(State()), id)
    {
      var n := nodes[id];
      var diff := if n.expiry >= nowTick then n.expiry - nowTick else SPAN;
      if diff < SLOTS {
        var s := n.expiry % SLOTS;
        l0[s] := l0[s] + [id];
        assert l0[..] == Push(old(l0[..]), s, id);
      } else {
        if diff >= SLOTS * SLOTS {
          n := n.(expiry := nowTick + SLOTS * SLOTS - 1);
        }
        nodes := nodes[id := n];
        var s := (n.expiry / SLOTS) % SLOTS;
        l1[s] := l1[s] + [id];
        assert l1[..] == Push(old(l1[..]), s, id);
      }
    }

    method Add(delayMs: nat, cb: Callback) returns (id: nat)
      requires Valid()
      modifies this`nextId, this`nodes, this`alive, l0, l1
      ensures Valid() && id == old(nextId)
      ensures State() == WheelModel.Add(old(State()), delayMs, cb)
    {
      var ticks := (delayMs + TICK_MS - 1) / TICK_MS;
      if ticks == 0 {
        ticks := 1;
      }
      id := nextId;
      nextId := nextId + 1;
      nodes := nodes[id := Node(nowTick + ticks, cb, false)];
      alive := alive + {id};
      assert State() == Register(old(State()), delayMs, cb);
      Place(id);
    }

    method Cancel(id: nat)
      requires Valid()
      modifies this`nodes, this`alive
      ensures Valid() && State() == WheelModel.Cancel(old(State()), id)
    {
      if id !in alive {
        return;
      }
      nodes := nodes[id := nodes[id].(canceled := true)];
      alive := alive - {id};
    }

    /** A callback at work: whatever it does, it does through `Add` and `Cancel`. */
    method RunCallback(ops: seq<Op>)
      requires Valid()
      modifies this`nextId, this`nodes, this`alive, l0, l1
      ensures Valid() && State() == ApplyOps(old(State()), ops)
    {
      hide WellFormed, WheelModel.Add, WheelModel.Cancel;
      var i := 0;
      assert ops[0..] == ops;
      while i < |ops|
        invariant 0 <= i <= |ops| && Valid()
        invariant ApplyOps(State(), ops[i..]) == ApplyOps(old(State()), ops)
      {
        assert ops[i..][0] == ops[i] && ops[i..][1..] == ops[i + 1..];
        match ops[i] {
          case OpAdd(d, cb) => var _ := Add(d, cb);
          case OpCancel(id) => Cancel(id);
        }
        i := i + 1;
      }
    }

    method FireSlot(s: nat, react: React)
      requires Valid() && s < SLOTS && firing == []
      modifies this`nextId, this`nodes, this`alive, this`log, this`firing, l0, l1
      ensures Valid()
      ensures State() == FireAll(old(State()).(firing := old(l0[s]), l0 := old(l0[..])[s := []]), react)
    {
      var pending := l0[s];
      l0[s] := [];
      firing := pending;
      ghost var w0 := old(State()).(firing := old(l0[s]), l0 := old(l0[..])[s := []]);
      assert State() == w0 by { assert l0[..] == old(l0[..])[s := []]; }
      var i := 0;
      while i < |pending|
        invariant 0 <= i <= |pending| && Valid() && firing == pending[i..]
        invariant FireAll(State(), react) == FireAll(w0, react)
      {
        FireFront(pending[i], react);
        i := i + 1;
      }
    }

    /** One turn of the loop of `FireSlot`. */
    method FireFront(id: nat, react: React)
      requires Valid() && firing != [] && id == firing[0]
      modifies this`nextId, this`nodes, this`alive, this`log, this`firing, l0, l1
      ensures Valid() && State() == FireOne(old(State()), react)
    {
      firing := firing[1..];
      if nodes[id].canceled {
        return;
      }
      alive := alive - {id};
      log := log + [Fired(id, nowTick, nodes[id].cb)];
      assert State() == FireNext(old(State()));
      RunCallback(react(id, nowTick));
    }

    method CascadeL1(s: nat)
      requires Valid() && s < SLOTS
      modifies this`nodes, l0, l1
      ensures Valid()
      ensures State() == Cascade(old(State()).(l1 := old(l1[..])[s := []]), old(l1[s]))
    {
      var cascade := l1[s];
      l1[s] := [];
      ghost var w0 := State();
      assert w0.l1 == old(l1[..])[s := []];
      var i := 0;
      assert cascade[0..] == cascade;
      while i < |cascade|
        invariant 0 <= i <= |cascade| && Valid()
        invariant forall id | id in cascade :: id in nodes
        invariant Cascade(State(), cascade[i..]) == Cascade(w0, cascade)
      {
        assert cascade[i..][0] == cascade[i] && cascade[i..][1..] == cascade[i + 1..];
        if !nodes[cascade[i]].canceled {
          Place(cascade[i]);
        }
        i := i + 1;
      }
    }

    method Advance(elapsedMs: nat, react: React)
      requires Valid() && firing == []
      modifies this, l0, l1
      ensures Valid() && State() == WheelRuns.Advance(old(State()), elapsedMs, react)
    {
      hide WellFormed, TickN;
      remainderMs := remainderMs + elapsedMs;
      var steps := remainderMs / TICK_MS;
      remainderMs := remainderMs % TICK_MS;
      RemainderWellFormed(old(State()), remainderMs);
      RunTicks(steps, react);
    }

    /** The loop of `Advance`. */
    method RunTicks(steps: nat, react: React)
      requires Valid() && firing == []
      modifies this, l0, l1
      ensures Valid() && State() == TickN(old(State()), steps, react)
    {
      hide WellFormed, Tick;
      var s := 0;
      while s < steps
        invariant 0 <= s <= steps && Valid() && firing == []
        invariant TickN(State(), steps - s, react) == TickN(old(State()), steps, react)
      {
        StepTick(react);
        s := s + 1;
      }
    }

    /** One turn of the loop of `Advance`. */
    method StepTick(react: React)
      requires Valid() && firing == []
      modifies this, l0, l1
      ensures Valid() && State() == Tick(old(State()), react)
    {
      nowTick := nowTick + 1;
      ghost var w1 := State();
      if nowTick % SLOTS == 0 {
        CascadeL1((nowTick / SLOTS) % SLOTS);
      }
      assert State() == CascadeSlot(w1);
      FireSlot(nowTick % SLOTS, react);
    }
  }
}
