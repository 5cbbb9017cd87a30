/**
 The two-level timer wheel as a value, and the proof that it behaves like the
 simple thing it stands for: a map from timer id to expiry tick.

 Level 0 has one slot per tick, level 1 one slot per 64 ticks.  A node is shared
 between its slot and the table of live timers; here a node is named by its id and
 `nodes` is the store both refer to, so that cancelling through the table is seen
 by whoever meets the node in a slot later.
 */
module WheelModel {
  import opened Prelude

  const TICK_MS: nat := 100
  const SLOTS: nat := 64
  const SPAN: nat := 4096

  /** What the owner of the wheel asks to be called back for. */
  datatype Callback = MatchTimeout(pid: nat) | ExpireSession(pid: nat) | Sweep

  datatype Node = Node(expiry: nat, cb: Callback, canceled: bool)

  /** One callback invocation, with the tick at which it started. */
  datatype Fired = Fired(id: nat, tick: nat, cb: Callback)

  /** `firing` is the slot content taken out by the tick in progress (empty between
      ticks); `log` records every callback invocation so far. */
  datatype Wheel = Wheel(
    now: nat,
    remainderMs: nat,
    nextId: nat,
    nodes: map<nat, Node>,
    l0: seq<seq<nat>>,
    l1: seq<seq<nat>>,
    alive: set<nat>,
    firing: seq<nat>,
    log: seq<Fired>)

  predicate WellFormed(w: Wheel) {
    && |w.l0| == SLOTS && |w.l1| == SLOTS && 1 <= w.nextId
    && (forall s, id | 0 <= s < SLOTS && id in w.l0[s] :: id in w.nodes)
    && (forall s, id | 0 <= s < SLOTS && id in w.l1[s] :: id in w.nodes)
    && (forall id | id in w.firing :: id in w.nodes)
    && (forall id | id in w.alive :: id in w.nodes)
    && (forall id | id in w.nodes :: 1 <= id < w.nextId)
  }

  function Init(): (w: Wheel)
    ensures WellFormed(w)
  {
    Wheel(0, 0, 1, map[], seq(SLOTS, _ => []), seq(SLOTS, _ => []), {}, [], [])
  }

  // ---------------------------------------------------------------- operations

  /** Delay rounded up to ticks, never less than one. */
  function Ticks(delayMs: nat): nat {
    var t := (delayMs + TICK_MS - 1) / TICK_MS;
    if t == 0 then 1 else t
  }

  /** Unsigned distance to the expiry: an expiry in the past would wrap around to a
      distance far beyond the span (no reachable state has one). */
  function Diff(expiry: nat, now: nat): nat {
    if expiry >= now then expiry - now else SPAN
  }

  function Push(slots: seq<seq<nat>>, s: nat, id: nat): seq<seq<nat>>
    requires s < |slots|
  {
    slots[s := slots[s] + [id]]
  }

  function Place(w: Wheel, id: nat): (r: Wheel)
    requires WellFormed(w) && id in w.nodes
    ensures WellFormed(r) && r.nodes.Keys == w.nodes.Keys
    ensures r == w.(nodes := r.nodes, l0 := r.l0, l1 := r.l1)
  {
    var n := w.nodes[id];
    var d := Diff(n.expiry, w.now);
    if d < SLOTS then
      w.(l0 := Push(w.l0, n.expiry % SLOTS, id))
    else
      var e := if d >= SPAN then w.now + SPAN - 1 else n.expiry;
      w.(nodes := w.nodes[id := n.(expiry := e)], l1 := Push(w.l1, (e / SLOTS) % SLOTS, id))
  }

  /** Makes the node and enters it in the table of live timers. */
  function Register(w: Wheel, delayMs: nat, cb: Callback): (r: Wheel)
    requires WellFormed(w)
    ensures WellFormed(r) && w.nextId in r.nodes
  {
    w.(nextId := w.nextId + 1,
       nodes := w.nodes[w.nextId := Node(w.now + Ticks(delayMs), cb, false)],
       alive := w.alive + {w.nextId})
  }

  function Add(w: Wheel, delayMs: nat, cb: Callback): (r: Wheel)
    requires WellFormed(w)
    ensures WellFormed(r)
  {
    Place(Register(w, delayMs, cb), w.nextId)
  }

  function Cancel(w: Wheel, id: nat): (r: Wheel)
    requires WellFormed(w)
    ensures WellFormed(r)
  {
    if id in w.alive then
      w.(nodes := w.nodes[id := w.nodes[id].(canceled := true)], alive := w.alive - {id})
    else w
  }

  /** Re-places the live nodes of `list`, front to back. */
  function Cascade(w: Wheel, list: seq<nat>): (r: Wheel)
    requires WellFormed(w)
    requires forall id | id in list :: id in w.nodes
    ensures WellFormed(r) && r.nodes.Keys == w.nodes.Keys
    ensures r == w.(nodes := r.nodes, l0 := r.l0, l1 := r.l1)
    decreases |list|
  {
    if list == [] then w
    else Cascade(if w.nodes[list[0]].canceled then w else Place(w, list[0]), list[1..])
  }

  /** First half of a tick when level 0 has gone round: level 1's slot comes down. */
  function CascadeSlot(w: Wheel): (r: Wheel)
    requires WellFormed(w)
    ensures WellFormed(r)
    ensures r == w.(nodes := r.nodes, l0 := r.l0, l1 := r.l1)
  {
    if w.now % SLOTS == 0 then
      var s := (w.now / SLOTS) % SLOTS;
      Cascade(w.(l1 := w.l1[s := []]), w.l1[s])
    else w
  }

  /** Second half: the current level 0 slot is swapped out, ready to fire. */
  function TakeSlot(w: Wheel): (r: Wheel)
    requires WellFormed(w)
    ensures WellFormed(r)
  {
    var s := w.now % SLOTS;
    w.(firing := w.l0[s], l0 := w.l0[s := []])
  }

  function StartTick(w: Wheel): (r: Wheel)
    requires WellFormed(w)
    ensures WellFormed(r)
  {
    TakeSlot(CascadeSlot(w.(now := w.now + 1)))
  }

  /** Takes the next node of the slot in progress; a cancelled one is skipped. */
  function FireNext(w: Wheel): (r: Wheel)
    requires WellFormed(w) && w.firing != []
    ensures WellFormed(r)
  {
    var id := w.firing[0];
    var n := w.nodes[id];
    var w1 := w.(firing := w.firing[1..]);
    if n.canceled then w1
    else w1.(alive := w.alive - {id}, log := w.log + [Fired(id, w.now, n.cb)])
  }

  // ---------------------------------------------------------------- invariant

  /** The node may fire: it has been neither cancelled nor fired. */
  predicate Live(w: Wheel, id: nat) {
    id in w.alive && id in w.nodes && !w.nodes[id].canceled
  }

  /** Level 0 holds, in slot e mod 64, the live nodes that expire at e in [lo, now + 64). */
  ghost predicate Level0(w: Wheel, lo: nat) {
    && |w.l0| == SLOTS
    && (forall s | 0 <= s < SLOTS :: NoRepeat(w.l0[s]))
    && (forall s, id | 0 <= s < SLOTS && id in w.l0[s] ::
          && id in w.nodes
          && (w.nodes[id].canceled ||
              (id in w.alive && lo <= w.nodes[id].expiry < w.now + SLOTS && w.nodes[id].expiry % SLOTS == s)))
  }

  /** Level 1 holds the live nodes of the next 64 rounds of level 0, one slot per round. */
  ghost predicate Level1(w: Wheel) {
    && |w.l1| == SLOTS
    && (forall s | 0 <= s < SLOTS :: NoRepeat(w.l1[s]))
    && (forall s, id | 0 <= s < SLOTS && id in w.l1[s] ::
          && id in w.nodes
          && (w.nodes[id].canceled ||
              (&& id in w.alive
               && w.now / SLOTS < w.nodes[id].expiry / SLOTS <= w.now / SLOTS + SLOTS
               && (w.nodes[id].expiry / SLOTS) % SLOTS == s)))
  }

  /** Nodes in hand, about to be placed. */
  ghost predicate InHand(w: Wheel, lo: nat, rest: seq<nat>) {
    && NoRepeat(rest)
    && (forall id | id in rest ::
          && id in w.nodes
          && (w.nodes[id].canceled || (id in w.alive && lo <= w.nodes[id].expiry)))
  }

  ghost predicate Due(w: Wheel) {
    && NoRepeat(w.firing)
    && (forall id | id in w.firing ::
          && id in w.nodes
          && (w.nodes[id].canceled || (id in w.alive && w.nodes[id].expiry == w.now)))
  }

  predicate In0(w: Wheel, id: nat) requires |w.l0| == SLOTS && id in w.nodes {
    id in w.l0[w.nodes[id].expiry % SLOTS]
  }

  predicate In1(w: Wheel, id: nat) requires |w.l1| == SLOTS && id in w.nodes {
    id in w.l1[(w.nodes[id].expiry / SLOTS) % SLOTS]
  }

  /** Every live timer is in exactly one place. */
  ghost predicate OnePlace(w: Wheel, rest: seq<nat>)
    requires |w.l0| == SLOTS && |w.l1| == SLOTS
  {
    forall id | id in w.alive ::
      && id in w.nodes && !w.nodes[id].canceled
      && (In0(w, id) || In1(w, id) || id in w.firing || id in rest)
      && !(In0(w, id) && In1(w, id))
      && (id in w.firing ==> !In0(w, id) && !In1(w, id))
      && (id in rest ==> !In0(w, id) && !In1(w, id) && id !in w.firing)
  }

  /** The invariant in the middle of a tick: expiries from `lo` on are still in level 0
      and `rest` is still to be re-placed. */
  ghost predicate Mid(w: Wheel, lo: nat, rest: seq<nat>) {
    && WellFormed(w) && Level0(w, lo) && Level1(w) && InHand(w, lo, rest) && Due(w) && OnePlace(w, rest)
  }

  ghost predicate Inv(w: Wheel) {
    Mid(w, w.now + 1, [])
  }

  lemma InitInv()
    ensures Inv(Init())
  {
  }

  /** What `PlaceMid` needs to know about the node in hand: it is in no slot. */
  lemma InHandIsNowhereElse(w: Wheel, lo: nat, id: nat, rest: seq<nat>)
    requires Mid(w, lo, [id] + rest) && Live(w, id) && w.now <= lo
    ensures id !in rest && id !in w.firing && lo <= w.nodes[id].expiry
    ensures forall x | x in rest :: x in [id] + rest
    ensures forall s | 0 <= s < SLOTS :: id !in w.l0[s] && id !in w.l1[s]
    ensures InHand(w, lo, rest)
  {
    var l := [id] + rest;
    assert l[0] == id;
    forall i | 0 <= i < |rest| ensures rest[i] != id && rest[i] in l {
      assert l[i + 1] == rest[i];
    }
    forall i, j | 0 <= i < j < |rest| ensures rest[i] != rest[j] {
      assert l[i + 1] == rest[i] && l[j + 1] == rest[j];
    }
    assert id in l;
  }

  lemma PushDistinct(s: seq<nat>, id: nat)
    requires NoRepeat(s) && id !in s
    ensures NoRepeat(s + [id])
  {
  }

  lemma PushLevel0(w: Wheel, lo: nat, id: nat)
    requires Level0(w, lo) && Live(w, id) && lo <= w.nodes[id].expiry < w.now + SLOTS
    requires forall s | 0 <= s < SLOTS :: id !in w.l0[s]
    ensures Level0(w.(l0 := Push(w.l0, w.nodes[id].expiry % SLOTS, id)), lo)
  {
    PushDistinct(w.l0[w.nodes[id].expiry % SLOTS], id);
  }

  lemma PushLevel1(w: Wheel, id: nat, e: nat)
    requires Level1(w) && Live(w, id) && w.now + SLOTS <= e < w.now + SPAN
    requires forall s | 0 <= s < SLOTS :: id !in w.l1[s]
    ensures
      Level1(w.(nodes := w.nodes[id := w.nodes[id].(expiry := e)], l1 := Push(w.l1, (e / SLOTS) % SLOTS, id)))
  {
    PushDistinct(w.l1[(e / SLOTS) % SLOTS], id);
  }

  /** A node in neither level and not being fired may change its expiry. */
  lemma MovedElsewhere(w: Wheel, lo: nat, id: nat, e: nat)
    requires Level0(w, lo) && Due(w) && id in w.nodes && id !in w.firing
    requires forall s | 0 <= s < SLOTS :: id !in w.l0[s]
    ensures
      var r := w.(nodes := w.nodes[id := w.nodes[id].(expiry := e)]);
      Level0(r, lo) && Due(r)
  {
  }

  lemma PlaceLevels(w: Wheel, lo: nat, id: nat)
    requires WellFormed(w) && Level0(w, lo) && Level1(w) && Due(w)
    requires Live(w, id) && w.now <= lo <= w.nodes[id].expiry
    requires forall s | 0 <= s < SLOTS :: id !in w.l0[s] && id !in w.l1[s]
    requires id !in w.firing
    ensures var r := Place(w, id); Level0(r, lo) && Level1(r) && Due(r)
  {
    var n := w.nodes[id];
    var r := Place(w, id);
    if Diff(n.expiry, w.now) < SLOTS {
      PushLevel0(w, lo, id);
      assert Level1(r) && Due(r);
    } else {
      var e := r.nodes[id].expiry;
      PushLevel1(w, id, e);
      MovedElsewhere(w, lo, id, e);
      assert Level0(r, lo) && Due(r);
    }
    hide Level0, Level1, Due;
  }

  lemma PlaceOnePlace(w: Wheel, lo: nat, id: nat, rest: seq<nat>)
    requires Mid(w, lo, [id] + rest) && Live(w, id) && w.now <= lo
    ensures OnePlace(Place(w, id), rest)
  {
    InHandIsNowhereElse(w, lo, id, rest);
    var r := Place(w, id);
    forall x | x in r.alive
      ensures
      && x in r.nodes && !r.nodes[x].canceled
      && (In0(r, x) || In1(r, x) || x in r.firing || x in rest)
      && !(In0(r, x) && In1(r, x))
      && (x in r.firing ==> !In0(r, x) && !In1(r, x))
      && (x in rest ==> !In0(r, x) && !In1(r, x) && x !in r.firing)
    {
      if x != id {
        assert r.nodes[x] == w.nodes[x];
        assert x in [id] + rest ==> x in rest;
        assert In0(r, x) == In0(w, x);
        assert In1(r, x) == In1(w, x);
      }
    }
  }

  lemma PlaceMid(w: Wheel, lo: nat, id: nat, rest: seq<nat>)
    requires Mid(w, lo, [id] + rest) && Live(w, id) && w.now <= lo
    ensures Mid(Place(w, id), lo, rest)
  {
    InHandIsNowhereElse(w, lo, id, rest);
    PlaceLevels(w, lo, id);
    PlaceOnePlace(w, lo, id, rest);
    assert InHand(Place(w, id), lo, rest);
  }

  // ---------------------------------------------------------------- refinement

  datatype Timer = Timer(expiry: nat, cb: Callback)

  /** The abstraction: which timers are pending, and when each of them is due. */
  function Flat(w: Wheel): map<nat, Timer> {
    map id | id in w.alive && id in w.nodes :: Timer(w.nodes[id].expiry, w.nodes[id].cb)
  }

  /** Ticks after which a timer really fires: the span of the wheel caps the delay. */
  function EffectiveTicks(delayMs: nat): nat {
    if Ticks(delayMs) < SPAN then Ticks(delayMs) else SPAN - 1
  }

  lemma RegisterMid(w: Wheel, delayMs: nat, cb: Callback)
    requires Inv(w)
    ensures Mid(Register(w, delayMs, cb), w.now + 1, [w.nextId])
    ensures Live(Register(w, delayMs, cb), w.nextId)
  {
    var id := w.nextId;
    var r := Register(w, delayMs, cb);
    assert id !in w.nodes;
    assert Level0(r, w.now + 1);
    assert Level1(r);
    forall x | x in r.alive && x != id ensures In0(r, x) == In0(w, x) && In1(r, x) == In1(w, x) {
      assert r.nodes[x] == w.nodes[x];
    }
    assert OnePlace(r, [id]);
  }

  lemma PlaceFlat(w: Wheel, id: nat)
    requires WellFormed(w) && id in w.alive && w.now <= w.nodes[id].expiry
    ensures var e := w.nodes[id].expiry;
      Flat(Place(w, id)) ==
        Flat(w)[id := Timer(if e < w.now + SPAN then e else w.now + SPAN - 1, w.nodes[id].cb)]
  {
  }

  lemma AddInv(w: Wheel, delayMs: nat, cb: Callback)
    requires Inv(w)
    ensures Inv(Add(w, delayMs, cb))
  {
    RegisterMid(w, delayMs, cb);
    assert [w.nextId] + [] == [w.nextId];
    PlaceMid(Register(w, delayMs, cb), w.now + 1, w.nextId, []);
  }

  lemma AddFlat(w: Wheel, delayMs: nat, cb: Callback)
    requires WellFormed(w)
    ensures var r := Add(w, delayMs, cb);
      && w.nextId !in Flat(w)
      && Flat(r) == Flat(w)[w.nextId := Timer(w.now + EffectiveTicks(delayMs), cb)]
      && r.nextId == w.nextId + 1 && r.now == w.now && r.firing == w.firing && r.log == w.log
      && r.remainderMs == w.remainderMs
  {
    var w1 := Register(w, delayMs, cb);
    RegisterFlat(w, delayMs, cb);
    PlaceFlat(w1, w.nextId);
    hide Flat, Place, WellFormed, Ticks;
  }

  lemma RegisterFlat(w: Wheel, delayMs: nat, cb: Callback)
    requires WellFormed(w)
    ensures w.nextId !in Flat(w) && w.nextId !in w.nodes
    ensures Flat(Register(w, delayMs, cb)) == Flat(w)[w.nextId := Timer(w.now + Ticks(delayMs), cb)]
  {
    hide Ticks;
  }

  /** `add` adds one entry to the map, due at now + min(ticks, 4095), under a fresh id. */
  lemma AddRefines(w: Wheel, delayMs: nat, cb: Callback)
    requires Inv(w)
    ensures var r := Add(w, delayMs, cb);
      && Inv(r)
      && w.nextId !in Flat(w)
      && Flat(r) == Flat(w)[w.nextId := Timer(w.now + EffectiveTicks(delayMs), cb)]
      && r.nextId == w.nextId + 1 && r.now == w.now && r.firing == w.firing && r.log == w.log
      && r.remainderMs == w.remainderMs
  {
    AddInv(w, delayMs, cb);
    AddFlat(w, delayMs, cb);
  }

  lemma CancelInv(w: Wheel, id: nat)
    requires Inv(w)
    ensures Inv(Cancel(w, id))
  {
    var r := Cancel(w, id);
    if id in w.alive {
      assert Level0(r, w.now + 1);
      assert Level1(r);
      forall x | x in r.alive ensures In0(r, x) == In0(w, x) && In1(r, x) == In1(w, x) {
        assert r.nodes[x] == w.nodes[x];
      }
      assert OnePlace(r, []);
    }
  }

  lemma CancelFlat(w: Wheel, id: nat)
    requires WellFormed(w)
    ensures var r := Cancel(w, id);
      && Flat(r) == Flat(w) - {id}
      && r == w.(nodes := r.nodes, alive := r.alive) && r.alive == w.alive - {id}
  {
  }

  /** `cancel` removes exactly that entry, and is harmless for any other id. */
  lemma CancelRefines(w: Wheel, id: nat)
    requires Inv(w)
    ensures var r := Cancel(w, id);
      && Inv(r) && Flat(r) == Flat(w) - {id}
      && r == w.(nodes := r.nodes, alive := r.alive) && r.alive == w.alive - {id}
  {
    CancelInv(w, id);
    CancelFlat(w, id);
    hide Inv;
  }

  /** Cascading: nodes of the round that begins go to level 0, none back to level 1, and
      no expiry changes. */
  lemma {:induction false} CascadeMid(w: Wheel, list: seq<nat>)
    requires Mid(w, w.now, list) && w.firing == []
    requires forall id | id in list && !w.nodes[id].canceled :: w.nodes[id].expiry < w.now + SLOTS
    ensures var r := Cascade(w, list);
      && Mid(r, w.now, []) && r.nodes == w.nodes && r.l1 == w.l1
    decreases |list|
  {
    if list != [] {
      var id, rest := list[0], list[1..];
      assert list == [id] + rest;
      assert id in list;
      if w.nodes[id].canceled {
        assert forall x | x in rest :: x in list;
        assert InHand(w, w.now, rest);
        assert forall x | x in w.alive && x in list :: x in rest;
        CascadeMid(w, rest);
      } else {
        PlaceMid(w, w.now, id, rest);
        CascadeMid(Place(w, id), rest);
      }
    }
  }

  lemma BeforeCascade(w: Wheel)
    requires Inv(w) && w.firing == [] && (w.now + 1) % SLOTS == 0
    ensures
      var w1 := w.(now := w.now + 1);
      var s := (w1.now / SLOTS) % SLOTS;
      && Mid(w1.(l1 := w1.l1[s := []]), w1.now, w1.l1[s])
      && (forall id | id in w1.l1[s] && !w1.nodes[id].canceled :: w1.nodes[id].expiry < w1.now + SLOTS)
  {
    var w1 := w.(now := w.now + 1);
    var s := (w1.now / SLOTS) % SLOTS;
    var w2 := w1.(l1 := w1.l1[s := []]);
    assert w1.now / SLOTS == w.now / SLOTS + 1;
    assert WellFormed(w2) && Level0(w2, w1.now) && Due(w2);
    SlotInHand(w, s);
    RestOfLevel1(w, s);
    SlotLeavesPlaces(w, s);
    hide Level0, Level1, OnePlace, InHand, Due, WellFormed;
  }

  /** The nodes of the slot that comes down belong to the round that begins. */
  lemma SlotInHand(w: Wheel, s: nat)
    requires Level1(w) && w.firing == [] && (w.now + 1) % SLOTS == 0 && s == (w.now + 1) / SLOTS % SLOTS
    ensures InHand(w.(now := w.now + 1, l1 := w.l1[s := []]), w.now + 1, w.l1[s])
    ensures forall id | id in w.l1[s] && !w.nodes[id].canceled :: w.nodes[id].expiry < w.now + 1 + SLOTS
  {
    forall id | id in w.l1[s] && !w.nodes[id].canceled
      ensures id in w.alive && w.now + 1 <= w.nodes[id].expiry < w.now + 1 + SLOTS
    {
      SameRound(w.nodes[id].expiry / SLOTS, (w.now + 1) / SLOTS);
    }
  }

  lemma RestOfLevel1(w: Wheel, s: nat)
    requires Level1(w) && (w.now + 1) % SLOTS == 0 && s == (w.now + 1) / SLOTS % SLOTS
    ensures Level1(w.(now := w.now + 1, l1 := w.l1[s := []]))
  {
    var w2 := w.(now := w.now + 1, l1 := w.l1[s := []]);
    assert w2.now / SLOTS == w.now / SLOTS + 1;
    forall t, id | 0 <= t < SLOTS && id in w2.l1[t] && !w2.nodes[id].canceled
      ensures
      && id in w2.alive
      && w2.now / SLOTS < w2.nodes[id].expiry / SLOTS <= w2.now / SLOTS + SLOTS
    {
      assert id in w.l1[t] && t != s;
    }
  }

  lemma SlotLeavesPlaces(w: Wheel, s: nat)
    requires Level1(w) && |w.l0| == SLOTS && OnePlace(w, []) && s < SLOTS && w.firing == []
    ensures OnePlace(w.(now := w.now + 1, l1 := w.l1[s := []]), w.l1[s])
  {
    var w2 := w.(now := w.now + 1, l1 := w.l1[s := []]);
    forall id | id in w2.alive ensures
      && In0(w2, id) == In0(w, id)
      && (In1(w, id) <==> In1(w2, id) || id in w.l1[s])
      && !(In1(w2, id) && id in w.l1[s])
    {
    }
  }

  /** Two rounds less than 64 apart that share a level 1 slot are the same round. */
  lemma SameRound(a: nat, b: nat)
    requires a % SLOTS == b % SLOTS && b <= a < b + SLOTS
    ensures a == b
  {
  }

  lemma CascadeSlotMid(w: Wheel)
    requires Inv(w) && w.firing == []
    ensures
      var w1 := w.(now := w.now + 1);
      var r := CascadeSlot(w1);
      Mid(r, w1.now, []) && r.nodes == w.nodes
  {
    var w1 := w.(now := w.now + 1);
    if w1.now % SLOTS == 0 {
      BeforeCascade(w);
      var s := (w1.now / SLOTS) % SLOTS;
      CascadeMid(w1.(l1 := w1.l1[s := []]), w1.l1[s]);
    } else {
      assert Level1(w1);
      assert forall id | id in w1.alive :: In0(w1, id) == In0(w, id) && In1(w1, id) == In1(w, id);
    }
  }

  lemma TakeSlotInv(w: Wheel)
    requires Mid(w, w.now, []) && w.firing == []
    ensures Inv(TakeSlot(w))
    ensures forall id | id in w.alive :: id in TakeSlot(w).firing <==> w.nodes[id].expiry == w.now
  {
    var r := TakeSlot(w);
    assert Level0(r, r.now + 1);
    forall id | id in w.alive ensures
      && In1(r, id) == In1(w, id)
      && (id in r.firing <==> In0(w, id) && w.nodes[id].expiry == w.now)
      && (In0(w, id) <==> In0(r, id) || id in r.firing)
      && !(In0(r, id) && id in r.firing)
      && (w.nodes[id].expiry == w.now ==> In0(w, id))
    {
    }
    assert OnePlace(r, []);
  }

  lemma StartTickInv(w: Wheel)
    requires Inv(w) && w.firing == []
    ensures Inv(StartTick(w))
    ensures StartTick(w).nodes == w.nodes
    ensures forall id | id in w.alive :: id in StartTick(w).firing <==> w.nodes[id].expiry == w.now + 1
  {
    CascadeSlotMid(w);
    var r := CascadeSlot(w.(now := w.now + 1));
    TakeSlotInv(r);
    assert StartTick(w) == TakeSlot(r);
  }

  lemma StartTickFrame(w: Wheel)
    requires WellFormed(w)
    ensures var r := StartTick(w);
      && r == w.(now := w.now + 1, nodes := r.nodes, l0 := r.l0, l1 := r.l1, firing := r.firing)
      && (r.nodes == w.nodes ==> Flat(r) == Flat(w))
  {
  }

  /** A tick moves time on by one, keeps the map, and takes out exactly the timers due now. */
  lemma StartTickRefines(w: Wheel)
    requires Inv(w) && w.firing == []
    ensures var r := StartTick(w);
      && Inv(r)
      && r == w.(now := w.now + 1, l0 := r.l0, l1 := r.l1, firing := r.firing)
      && Flat(r) == Flat(w)
      && (forall id | id in Flat(r) :: id in r.firing <==> Flat(r)[id].expiry == r.now)
  {
    StartTickInv(w);
    StartTickFrame(w);
  }

  lemma FireNextOnePlace(w: Wheel)
    requires Inv(w) && w.firing != []
    ensures OnePlace(FireNext(w), [])
    ensures Due(FireNext(w))
  {
    var id, r := w.firing[0], FireNext(w);
    assert id in w.firing;
    assert w.firing == [id] + r.firing;
    forall x | x in r.firing ensures x in w.firing && x != id {
      var i :| 0 <= i < |r.firing| && r.firing[i] == x;
      assert w.firing[i + 1] == x;
    }
    assert NoRepeat(r.firing) by {
      forall i, j | 0 <= i < j < |r.firing| ensures r.firing[i] != r.firing[j] {
        assert r.firing[i] == w.firing[i + 1] && r.firing[j] == w.firing[j + 1];
      }
    }
    forall x | x in r.alive
      ensures In0(r, x) == In0(w, x) && In1(r, x) == In1(w, x) && (x in w.firing <==> x in r.firing)
    {
    }
  }

  /** A node due now is in neither level, so taking it out of the table hurts neither. */
  lemma LevelsWithout(w: Wheel, r: Wheel, id: nat)
    requires Level0(w, w.now + 1) && Level1(w) && id in w.nodes && (w.nodes[id].canceled || w.nodes[id].expiry == w.now)
    requires r.now == w.now && r.nodes == w.nodes && r.l0 == w.l0 && r.l1 == w.l1
    requires r.alive == w.alive || (r.alive == w.alive - {id} && !w.nodes[id].canceled)
    ensures Level0(r, r.now + 1) && Level1(r)
  {
  }

  lemma FireNextInv(w: Wheel)
    requires Inv(w) && w.firing != []
    ensures Inv(FireNext(w))
  {
    FireNextOnePlace(w);
    assert w.firing[0] in w.firing;
    hide OnePlace, Level0, Level1;
    LevelsWithout(w, FireNext(w), w.firing[0]);
  }

  lemma FireNextFlat(w: Wheel)
    requires WellFormed(w) && Due(w) && w.firing != []
    requires forall id | id in w.alive :: !w.nodes[id].canceled
    ensures
      var id, r := w.firing[0], FireNext(w);
      && r == w.(alive := r.alive, log := r.log, firing := w.firing[1..])
      && Flat(r) == Flat(w) - {id}
      && (id in Flat(w) ==> Flat(w)[id].expiry == w.now && r.log == w.log + [Fired(id, w.now, Flat(w)[id].cb)])
      && (id !in Flat(w) ==> r.log == w.log)
  {
    assert w.firing[0] in w.firing;
  }

  /** Taking a node either skips a cancelled one, which the map no longer has, or fires an
      entry of the map that is due now and removes it. */
  lemma FireNextRefines(w: Wheel)
    requires Inv(w) && w.firing != []
    ensures
      var id, r := w.firing[0], FireNext(w);
      && Inv(r)
      && r == w.(alive := r.alive, log := r.log, firing := w.firing[1..])
      && Flat(r) == Flat(w) - {id}
      && (id in Flat(w) ==> Flat(w)[id].expiry == w.now && r.log == w.log + [Fired(id, w.now, Flat(w)[id].cb)])
      && (id !in Flat(w) ==> r.log == w.log)
  {
    FireNextInv(w);
    FireNextFlat(w);
  }

  /** The node about to be taken is skipped exactly when the map has no entry for it. */
  lemma NextIsLive(w: Wheel)
    requires Inv(w) && w.firing != []
    ensures
      var id := w.firing[0];
      && id in w.nodes
      && (w.nodes[id].canceled <==> id !in Flat(w))
      && (id in Flat(w) ==> Flat(w)[id] == Timer(w.now, w.nodes[id].cb))
  {
    assert w.firing[0] in w.firing;
  }

  /** Ids are issued in order and never reused. */
  lemma IdsBelowNext(w: Wheel)
    requires Inv(w)
    ensures 1 <= w.nextId
    ensures forall id | id in Flat(w) :: 1 <= id < w.nextId
  {
  }

  /** Between ticks no entry of the map is overdue. */
  lemma NothingOverdue(w: Wheel)
    requires Inv(w)
    ensures forall id | id in Flat(w) ::
      w.now <= Flat(w)[id].expiry && (Flat(w)[id].expiry == w.now ==> id in w.firing)
  {
    forall id | id in Flat(w) ensures
      w.now <= Flat(w)[id].expiry && (Flat(w)[id].expiry == w.now ==> id in w.firing)
    {
      assert id in w.alive;
    }
  }
}
