/**
 The matching queue: a deque of ids in arrival order and a set of those really waiting.
 Leaving the queue only touches the set; the stale deque entry is skipped later.
 */
module QueueModel {
  import opened Prelude

  datatype Queue = Queue(order: seq<nat>, waiting: set<nat>)

  const Empty: Queue := Queue([], {})

  /** Everyone who waits is somewhere in the deque. */
  predicate Ok(q: Queue) {
    forall id | id in q.waiting :: id in q.order
  }

  function Push(q: Queue, id: nat): (r: Queue)
    ensures Ok(q) ==> Ok(r)
  {
    if id in q.waiting then q else Queue(q.order + [id], q.waiting + {id})
  }

  function Remove(q: Queue, id: nat): (r: Queue)
    ensures Ok(q) ==> Ok(r)
  {
    q.(waiting := q.waiting - {id})
  }

  /** Drops stale entries from the front. */
  function Compact(q: Queue): (r: Queue)
    ensures r.waiting == q.waiting
    ensures Ok(q) ==> Ok(r)
    ensures r.order == [] || r.order[0] in r.waiting
    ensures Ok(q) && q.waiting != {} ==> r.order != []
    decreases |q.order|
  {
    if q.order != [] && q.order[0] !in q.waiting then Compact(q.(order := q.order[1..])) else q
  }

  /** Removes and returns the first waiting id. */
  function TakeFront(q: Queue): (r: (Queue, nat))
    requires Ok(q) && q.waiting != {}
    ensures r.1 in q.waiting && r.0.waiting == q.waiting - {r.1} && Ok(r.0)
  {
    var c := Compact(q);
    var id := c.order[0];
    assert c.order == [id] + c.order[1..];
    (Queue(c.order[1..], c.waiting - {id}), id)
  }

  /** Pops a pair if two are waiting: two distinct waiting ids, and no one else leaves. */
  function PopPair(q: Queue): (r: (Queue, Option<(nat, nat)>))
    requires Ok(q)
    ensures Ok(r.0)
    ensures r.1.Some? <==> |q.waiting| >= 2
    ensures r.1.None? ==> r.0.waiting == q.waiting
    ensures r.1.Some? ==>
      var (a, b) := r.1.value;
      a != b && a in q.waiting && b in q.waiting && r.0.waiting == q.waiting - {a, b}
  {
    var c := Compact(q);
    if |c.waiting| < 2 then (c, None)
    else
      var (q1, a) := TakeFront(c);
      assert |q1.waiting| == |c.waiting| - 1;
      var (q2, b) := TakeFront(q1);
      (q2, Some((a, b)))
  }

  // ------------------------------------------------------------ the lobby's use of it

  /** Between two steps of the lobby the deque holds copies of one id only, so at most one
      player waits. */
  predicate Settled(q: Queue) {
    && Ok(q)
    && (forall i | 0 <= i < |q.order| :: q.order[i] == q.order[0])
  }

  lemma SettledAtMostOne(q: Queue)
    requires Settled(q)
    ensures |q.waiting| <= 1
    ensures forall a, b | a in q.waiting && b in q.waiting :: a == b
  {
    forall a, b | a in q.waiting && b in q.waiting ensures a == b {
    }
    if q.waiting != {} {
      var a :| a in q.waiting;
      assert q.waiting == {a};
    }
  }

  lemma RemoveSettled(q: Queue, id: nat)
    requires Settled(q)
    ensures Settled(Remove(q, id))
  {
  }

  lemma {:induction false} CompactRun(q: Queue, w: nat, tail: seq<nat>)
    requires forall i | 0 <= i < |q.order| :: q.order[i] == w
    requires w !in q.waiting
    ensures Compact(q.(order := q.order + tail)) == Compact(q.(order := tail))
    decreases |q.order|
  {
    if q.order == [] {
      assert q.order + tail == tail;
    } else {
      assert (q.order + tail)[1..] == q.order[1..] + tail;
      CompactRun(q.(order := q.order[1..]), w, tail);
    }
  }

  /**
   The lobby pushes a newcomer and then asks for a pair.  Either nobody was waiting and
   the newcomer now waits alone, or somebody was and the pair is (the one who waited, the
   newcomer), in that order, whatever stale or repeated entries the deque holds.
   */
  lemma PushThenPop(q: Queue, id: nat)
    requires Settled(q) && id !in q.waiting
    ensures
      var (r, pair) := PopPair(Push(q, id));
      && Settled(r)
      && (q.waiting == {} ==> pair == None && r.waiting == {id})
      && (forall w | w in q.waiting :: q.waiting == {w} && pair == Some((w, id)) && r.waiting == {})
  {
    SettledAtMostOne(q);
    var p := Push(q, id);
    if q.waiting == {} {
      LonelyPush(q, id);
    } else {
      var w :| w in q.waiting;
      assert q.waiting == {w};
      PairedPush(q, id, w);
    }
  }

  lemma {:induction false} CompactStale(order: seq<nat>, id: nat)
    requires order != [] && order[|order| - 1] == id
    requires forall i | 0 <= i < |order| - 1 :: order[i] == order[0]
    ensures forall i | 0 <= i < |Compact(Queue(order, {id})).order| :: Compact(Queue(order, {id})).order[i] == id
    decreases |order|
  {
    var q := Queue(order, {id});
    if order[0] == id {
      assert Compact(q) == q;
    } else {
      assert order[0] !in q.waiting;
      assert Compact(q) == Compact(Queue(order[1..], {id}));
      CompactStale(order[1..], id);
    }
  }

  lemma LonelyPush(q: Queue, id: nat)
    requires Settled(q) && q.waiting == {}
    ensures var (r, pair) := PopPair(Push(q, id)); Settled(r) && pair == None && r.waiting == {id}
  {
    var p := Push(q, id);
    assert p == Queue(q.order + [id], {id});
    assert forall i | 0 <= i < |q.order| :: p.order[i] == q.order[i];
    CompactStale(p.order, id);
    assert |p.waiting| == 1;
    assert PopPair(p) == (Compact(p), None);
    var r := Compact(p);
    assert forall i | 0 <= i < |r.order| :: r.order[i] == id;
  }

  lemma PairedPush(q: Queue, id: nat, w: nat)
    requires Settled(q) && q.waiting == {w} && id != w
    ensures var (r, pair) := PopPair(Push(q, id)); Settled(r) && pair == Some((w, id)) && r.waiting == {}
  {
    var p := Push(q, id);
    assert p == Queue(q.order + [id], {w, id});
    assert q.order[0] == w && p.order[0] == w;
    assert Compact(p) == p;
    var q1 := Queue(p.order[1..], {id});
    assert p.waiting - {w} == {id};
    assert TakeFront(p) == (q1, w);
    assert q1.order == q.order[1..] + [id];
    var base := Queue(q.order[1..], {id});
    CompactRun(base, w, [id]);
    assert base.(order := base.order + [id]) == q1;
    assert base.(order := [id]) == Queue([id], {id});
    assert Compact(Queue([id], {id})) == Queue([id], {id});
    assert Compact(q1) == Queue([id], {id});
    assert [id][1..] == [] && {id} - {id} == {};
    assert TakeFront(q1) == (Queue([], {}), id);
  }

  // ------------------------------------------------------------ first come, first served

  /** Left to itself the queue is not first come, first served: here 2 has waited longer
      than 1, who left and came back, but 1 is served first. */
  lemma OvertakingExample()
    ensures
      var q := Push(Remove(Push(Push(Empty, 1), 2), 1), 1);
      q == Queue([1, 2, 1], {1, 2}) && PopPair(q).1 == Some((1, 2))
  {
    var q := Push(Remove(Push(Push(Empty, 1), 2), 1), 1);
    assert q.order == [1, 2, 1] && q.waiting == {1, 2};
    assert Compact(q) == q;
    var q1 := Queue([2, 1], {2});
    assert q.waiting - {1} == {2};
    assert TakeFront(q) == (q1, 1);
    assert Compact(q1) == q1;
    assert TakeFront(q1).1 == 2;
  }
}

/** The queue as it is programmed, updated in place. */
module MatchQueue {
  import opened Prelude
  import Q = QueueModel

  class MatchQueue {
    var order: seq<nat>
    var waiting: set<nat>

    function State(): Q.Queue
      reads this
    {
      Q.Queue(order, waiting)
    }

    constructor ()
      ensures State() == Q.Empty
    {
      order, waiting := [], {};
    }

    method Push(id: nat) returns (ok: bool)
      modifies this
      ensures State() == Q.Push(old(State()), id)
      ensures ok <==> id !in old(waiting)
    {
      if id in waiting {
        return false;
      }
      waiting := waiting + {id};
      order := order + [id];
      return true;
    }

    method Remove(id: nat)
      modifies this`waiting
      ensures State() == Q.Remove(old(State()), id)
    {
      waiting := waiting - {id};
    }

    method Compact()
      modifies this`order
      ensures State() == Q.Compact(old(State()))
    {
      while order != [] && order[0] !in waiting
        invariant Q.Compact(State()) == Q.Compact(old(State()))
        decreases |order|
      {
        order := order[1..];
      }
    }

    method TakeFront() returns (id: nat)
      requires Q.Ok(State()) && waiting != {}
      modifies this
      ensures (State(), id) == Q.TakeFront(old(State()))
    {
      Compact();
      id := order[0];
      order := order[1..];
      waiting := waiting - {id};
    }

    method PopPair() returns (pair: Option<(nat, nat)>)
      requires Q.Ok(State())
      modifies this
      ensures (State(), pair) == Q.PopPair(old(State()))
    {
      Compact();
      if |waiting| < 2 {
        return None;
      }
      var a := TakeFront();
      assert |waiting| == |old(waiting)| - 1;
      var b := TakeFront();
      return Some((a, b));
    }
  }
}
