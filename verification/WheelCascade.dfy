/** Each node comes down from level 1 at most once. */
module WheelCascade {
  import opened Prelude
  import opened WheelModel
  import opened WheelRuns

  /** A live node in level 1. */
  predicate Upstairs(w: Wheel, id: nat) {
    |w.l1| == SLOTS && Live(w, id) && In1(w, id)
  }

  function LiveOnes(w: Wheel, list: seq<nat>): (r: seq<nat>)
    ensures forall id :: id in r <==> id in list && Live(w, id)
  {
    if list == [] then []
    else if Live(w, list[0]) then [list[0]] + LiveOnes(w, list[1..])
    else LiveOnes(w, list[1..])
  }

  lemma {:induction false} LiveOnesDistinct(w: Wheel, list: seq<nat>)
    requires NoRepeat(list)
    ensures NoRepeat(LiveOnes(w, list))
  {
    if list != [] {
      LiveOnesDistinct(w, list[1..]);
    }
  }

  /** The nodes a step places a second time. */
  function Descends(w: Wheel, s: Step): seq<nat>
    requires WellFormed(w)
  {
    if s == DoTick && (w.now + 1) % SLOTS == 0 then LiveOnes(w, w.l1[(w.now + 1) / SLOTS % SLOTS]) else []
  }

  /** All second placements of a run, in order. */
  function Descents(t: Traced, steps: seq<Step>): seq<nat>
    requires WellFormed(t.w) && ValidRun(t, steps)
    decreases |steps|
  {
    if steps == [] then [] else Descends(t.w, steps[0]) + Descents(TracedApply(t, steps[0]), steps[1..])
  }

  lemma {:induction false} CascadeSkipsCancelled(w: Wheel, list: seq<nat>, id: nat)
    requires WellFormed(w) && id in w.nodes && w.nodes[id].canceled && forall x | x in list :: x in w.nodes
    ensures Cascade(w, list).nodes[id] == w.nodes[id] && (In0(Cascade(w, list), id) <==> In0(w, id))
    decreases |list|
  {
    if list != [] {
      var w1 := if w.nodes[list[0]].canceled then w else Place(w, list[0]);
      assert w1.nodes[id] == w.nodes[id] && (In0(w1, id) <==> In0(w, id));
      CascadeSkipsCancelled(w1, list[1..], id);
    }
  }

  /** The nodes said to descend are exactly those the cascade puts into level 0. */
  lemma DescendsIsPlaced(w: Wheel, id: nat)
    requires Inv(w) && WellFormed(w) && w.firing == [] && id in w.nodes
    ensures
      var r := CascadeSlot(w.(now := w.now + 1));
      id in r.nodes && (id in Descends(w, DoTick) <==> In0(r, id) && !In0(w, id))
  {
    CascadeSlotMid(w);
    if (w.now + 1) % SLOTS == 0 {
      if w.nodes[id].canceled {
        CancelledStays(w, id);
      } else {
        LivePlaced(w, id);
      }
    }
    hide Mid;
  }

  lemma CancelledStays(w: Wheel, id: nat)
    requires WellFormed(w) && id in w.nodes && w.nodes[id].canceled
    ensures
      var r := CascadeSlot(w.(now := w.now + 1));
      id in r.nodes && (In0(r, id) <==> In0(w, id))
  {
    hide Cascade, WellFormed;
    WellFormedLater(w);
    var w1 := w.(now := w.now + 1);
    var s := (w1.now / SLOTS) % SLOTS;
    if w1.now % SLOTS == 0 {
      SlotNodes(w1, s);
      CascadeSkipsCancelled(w1.(l1 := w1.l1[s := []]), w1.l1[s], id);
    }
  }

  lemma WellFormedLater(w: Wheel)
    requires WellFormed(w)
    ensures WellFormed(w.(now := w.now + 1)) && |w.l0| == SLOTS && |w.l1| == SLOTS
  {
  }

  lemma SlotNodes(w: Wheel, s: nat)
    requires WellFormed(w) && s < SLOTS
    ensures WellFormed(w.(l1 := w.l1[s := []])) && forall x | x in w.l1[s] :: x in w.nodes
  {
  }

  lemma LivePlaced(w: Wheel, id: nat)
    requires Inv(w) && WellFormed(w) && w.firing == [] && (w.now + 1) % SLOTS == 0
    requires id in w.nodes && !w.nodes[id].canceled
    ensures
      var r := CascadeSlot(w.(now := w.now + 1));
      id in r.nodes && (id in Descends(w, DoTick) <==> In0(r, id) && !In0(w, id))
  {
    hide CascadeSlot, Level0, Level1, OnePlace, InHand, Due, WellFormed, In0, In1, LiveOnes;
    WellFormedLater(w);
    CascadeSlotMid(w);
    SlotEmptied(w);
    PlacedFromSlot(w, CascadeSlot(w.(now := w.now + 1)), (w.now + 1) / SLOTS % SLOTS, id);
  }

  lemma SlotEmptied(w: Wheel)
    requires Inv(w) && WellFormed(w) && w.firing == [] && (w.now + 1) % SLOTS == 0
    ensures
      var r := CascadeSlot(w.(now := w.now + 1));
      r.l1 == w.l1[(w.now + 1) / SLOTS % SLOTS := []] && r.alive == w.alive && r.firing == []
  {
    BeforeCascade(w);
    hide Mid;
    var w1 := w.(now := w.now + 1);
    var s := (w1.now / SLOTS) % SLOTS;
    CascadeMid(w1.(l1 := w1.l1[s := []]), w1.l1[s]);
  }

  lemma PlacedFromSlot(w: Wheel, r: Wheel, s: nat, id: nat)
    requires WellFormed(w) && WellFormed(r) && s < SLOTS && id in w.nodes && !w.nodes[id].canceled
    requires r.nodes == w.nodes && r.alive == w.alive && w.firing == [] && r.firing == [] && r.l1 == w.l1[s := []]
    requires Level0(w, w.now + 1) && Level1(w) && OnePlace(w, [])
    requires Level0(r, r.now) && OnePlace(r, [])
    ensures id in LiveOnes(w, w.l1[s]) <==> In0(r, id) && !In0(w, id)
  {
    if id in w.alive {
      assert In0(w, id) || In1(w, id);
      assert In0(r, id) || In1(r, id);
    } else {
      assert !In0(r, id) && !Live(w, id);
    }
  }

  lemma TickLevel1(w: Wheel)
    requires Inv(w) && WellFormed(w) && w.firing == []
    ensures
      var r := StartTick(w);
      && r.nodes == w.nodes && r.alive == w.alive && r.nextId == w.nextId
      && r.l1 == if (w.now + 1) % SLOTS == 0 then w.l1[(w.now + 1) / SLOTS % SLOTS := []] else w.l1
  {
    hide Mid;
    StartTickInv(w);
    StartTickFrame(w);
    var w1 := w.(now := w.now + 1);
    if w1.now % SLOTS == 0 {
      BeforeCascade(w);
      var s := (w1.now / SLOTS) % SLOTS;
      CascadeMid(w1.(l1 := w1.l1[s := []]), w1.l1[s]);
    }
  }

  lemma AddLevel1(w: Wheel, delayMs: nat, cb: Callback, id: nat)
    requires Inv(w) && WellFormed(w) && Upstairs(Add(w, delayMs, cb), id) && id < w.nextId
    ensures Upstairs(w, id)
  {
  }

  lemma CancelLevel1(w: Wheel, x: nat, id: nat)
    requires WellFormed(w) && Upstairs(Cancel(w, x), id)
    ensures Upstairs(w, id)
  {
  }

  /** No step takes an existing node upstairs. */
  lemma NobodyGoesUp(w: Wheel, s: Step, id: nat)
    requires Inv(w) && WellFormed(w) && Enabled(w, s) && id < w.nextId && Upstairs(Apply(w, s), id)
    ensures Upstairs(w, id)
  {
    hide Inv, WellFormed, Upstairs, StartTick;
    match s {
      case DoAdd(d, cb) => AddLevel1(w, d, cb, id);
      case DoCancel(x) => CancelLevel1(w, x, id);
      case DoTick => TickNobodyUp(w, id);
      case DoFire => FireNobodyUp(w, id);
    }
  }

  lemma FireNobodyUp(w: Wheel, id: nat)
    requires WellFormed(w) && w.firing != [] && Upstairs(FireNext(w), id)
    ensures Upstairs(w, id)
  {
  }

  lemma TickNobodyUp(w: Wheel, id: nat)
    requires Inv(w) && WellFormed(w) && w.firing == [] && Upstairs(StartTick(w), id)
    ensures Upstairs(w, id) && id !in Descends(w, DoTick)
  {
    hide StartTick;
    TickLevel1(w);
    hide Inv;
  }

  /** Whoever comes down was upstairs, is not afterwards, and comes down once in the step. */
  lemma DescendsOnce(w: Wheel, s: Step, id: nat)
    requires Inv(w) && WellFormed(w) && Enabled(w, s)
    ensures NoRepeat(Descends(w, s))
    ensures id in Descends(w, s) ==> id < w.nextId && Upstairs(w, id) && !Upstairs(Apply(w, s), id)
  {
    hide StartTick;
    if s == DoTick && (w.now + 1) % SLOTS == 0 {
      LiveOnesDistinct(w, w.l1[(w.now + 1) / SLOTS % SLOTS]);
      if Upstairs(StartTick(w), id) {
        TickNobodyUp(w, id);
      }
    }
  }

  lemma DistinctConcat(a: seq<nat>, b: seq<nat>)
    requires NoRepeat(a) && NoRepeat(b) && forall x | x in a :: x !in b
    ensures NoRepeat(a + b)
  {
    forall i, j | 0 <= i < j < |a + b| ensures (a + b)[i] != (a + b)[j] {
      if i < |a| && j >= |a| {
        assert a[i] in a && b[j - |a|] in b;
      }
    }
  }

  lemma ApplyNextId(w: Wheel, s: Step)
    requires WellFormed(w) && Enabled(w, s)
    ensures w.nextId <= Apply(w, s).nextId
  {
  }

  lemma {:induction false} DescentsOnce(t: Traced, steps: seq<Step>)
    requires WellFormed(t.w) && Good(t) && ValidRun(t, steps)
    ensures NoRepeat(Descents(t, steps))
    ensures forall id | id in Descents(t, steps) :: id < t.w.nextId ==> Upstairs(t.w, id)
    decreases |steps|
  {
    if steps != [] {
      var s := steps[0];
      var t1 := TracedApply(t, s);
      StepGood(t, s);
      assert Inv(t.w) && t1.w == Apply(t.w, s);
      hide Good, Upstairs, Descends, WellFormed, TracedApply, Inv, Apply;
      DescentsOnce(t1, steps[1..]);
      ApplyNextId(t.w, s);
      var now, later := Descends(t.w, s), Descents(t1, steps[1..]);
      DescendsOnce(t.w, s, 0);
      forall id | id in now ensures id < t.w.nextId && Upstairs(t.w, id) && id !in later {
        DescendsOnce(t.w, s, id);
      }
      forall id | id in later && id < t.w.nextId ensures Upstairs(t.w, id) {
        NobodyGoesUp(t.w, s, id);
      }
      DistinctConcat(now, later);
    }
  }

  /** In every run of the wheel, whatever callbacks add and cancel, no node is placed by a
      cascade more than once. */
  lemma EachNodeCascadesAtMostOnce(steps: seq<Step>)
    requires ValidRun(Start, steps)
    ensures NoRepeat(Descents(Start, steps))
  {
    StartGood();
    hide Good, ValidRun;
    DescentsOnce(Start, steps);
  }
}
