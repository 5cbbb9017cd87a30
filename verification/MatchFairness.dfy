/**
 Who is served first.  A player has waited since its latest push, which is its last entry in
 the deque; the queue serves by first entries, which may be stale.  The two orders agree
 exactly when no waiting player has an entry ahead of the first entry of one who has waited
 longer.
 */
module MatchFairness {
  import opened Prelude
  import opened QueueModel

  /** Position of the first entry of `id`. */
  function First(order: seq<nat>, id: nat): (k: nat)
    requires id in order
    ensures k < |order| && order[k] == id && forall i | 0 <= i < k :: order[i] != id
  {
    if order[0] == id then 0 else 1 + First(order[1..], id)
  }

  /** Position of the last entry of `id`. */
  function Last(order: seq<nat>, id: nat): (k: nat)
    requires id in order
    ensures k < |order| && order[k] == id && forall i | k < i < |order| :: order[i] != id
  {
    var n := |order| - 1;
    if order[n] == id then n
    else
      assert order == order[..n] + [order[n]];
      Last(order[..n], id)
  }

  lemma FirstIs(order: seq<nat>, id: nat, k: nat)
    requires k < |order| && order[k] == id && forall i | 0 <= i < k :: order[i] != id
    ensures First(order, id) == k
  {
    var f := First(order, id);
    assert order[f] == id;
  }

  lemma LastIs(order: seq<nat>, id: nat, k: nat)
    requires k < |order| && order[k] == id && forall i | k < i < |order| :: order[i] != id
    ensures Last(order, id) == k
  {
    var f := Last(order, id);
    assert order[f] == id;
  }

  /** An id has an entry ahead of position `k` exactly when its first entry is. */
  lemma AheadIff(order: seq<nat>, id: nat, k: nat)
    requires id in order && k <= |order|
    ensures id in order[..k] <==> First(order, id) < k
  {
    var f := First(order, id);
    hide First;
    if f < k {
      assert order[..k][f] == id;
    }
  }

  /** Cutting entries from the front moves a later first entry up. */
  lemma FirstAfterCut(order: seq<nat>, k: nat, id: nat)
    requires k <= |order| && id in order && k <= First(order, id)
    ensures id in order[k..] && First(order[k..], id) + k == First(order, id)
  {
    var f := First(order, id);
    assert order[k..][f - k] == id;
    FirstIs(order[k..], id, f - k);
  }

  // ---------------------------------------------------------------- the pair that is served

  /** Position `k` holds the first entry that is not stale. */
  ghost predicate FrontAt(q: Queue, k: nat) {
    k < |q.order| && q.order[k] in q.waiting && forall i | 0 <= i < k :: q.order[i] !in q.waiting
  }

  lemma {:induction false} CompactCuts(q: Queue) returns (k: nat)
    ensures k <= |q.order| && Compact(q) == q.(order := q.order[k..])
    ensures k < |q.order| ==> FrontAt(q, k)
    decreases |q.order|
  {
    if q.order != [] && q.order[0] !in q.waiting {
      var rest := q.(order := q.order[1..]);
      k := CompactCuts(rest);
      assert q.order[k + 1..] == rest.order[k..];
      k := k + 1;
    } else {
      assert q.order[0..] == q.order;
      k := 0;
    }
  }

  /** Of these ids `x` has the foremost first entry. */
  ghost predicate Foremost(order: seq<nat>, ids: set<nat>, x: nat)
    requires forall z | z in ids :: z in order
  {
    x in ids && forall z | z in ids && z != x :: First(order, x) < First(order, z)
  }

  lemma TakeFrontIs(q: Queue) returns (k: nat)
    requires Ok(q) && q.waiting != {}
    ensures k < |q.order| && FrontAt(q, k)
    ensures TakeFront(q) == (Queue(q.order[k + 1..], q.waiting - {q.order[k]}), q.order[k])
  {
    k := CompactCuts(q);
    hide FrontAt;
    assert Compact(q).order == q.order[k..] && q.order[k..] != [];
    assert q.order[k..][1..] == q.order[k + 1..];
  }

  /** Behind the stale entries that lead comes the foremost player. */
  lemma FrontIsForemost(q: Queue, k: nat)
    requires Ok(q) && FrontAt(q, k)
    ensures Foremost(q.order, q.waiting, q.order[k])
    ensures forall z | z in q.waiting - {q.order[k]} :: z in q.order && k + 1 <= First(q.order, z)
  {
    FirstIs(q.order, q.order[k], k);
    forall z | z in q.waiting && z != q.order[k] ensures k < First(q.order, z) {
      assert q.order[First(q.order, z)] == z;
    }
  }

  /** Taking the front serves the foremost and leaves the others in their order. */
  lemma TakeFrontServes(q: Queue) returns (k: nat)
    requires Ok(q) && q.waiting != {}
    ensures
      var (r, x) := TakeFront(q);
      && k <= |q.order| && r.order == q.order[k..] && r.waiting == q.waiting - {x}
      && Foremost(q.order, q.waiting, x)
      && (forall z | z in r.waiting :: z in r.order && First(r.order, z) + k == First(q.order, z))
  {
    hide TakeFront, First, Foremost, FrontAt;
    k := TakeFrontIs(q);
    FrontIsForemost(q, k);
    OthersMoveUp(q.order, k + 1, q.waiting - {q.order[k]});
    k := k + 1;
  }

  lemma OthersMoveUp(order: seq<nat>, k: nat, ids: set<nat>)
    requires k <= |order| && forall z | z in ids :: z in order && k <= First(order, z)
    ensures forall z | z in ids :: z in order[k..] && First(order[k..], z) + k == First(order, z)
  {
    hide First;
    forall z | z in ids ensures z in order[k..] && First(order[k..], z) + k == First(order, z) {
      FirstAfterCut(order, k, z);
    }
  }

  lemma ForemostUnique(order: seq<nat>, ids: set<nat>, x: nat, y: nat)
    requires forall z | z in ids :: z in order
    requires Foremost(order, ids, x) && Foremost(order, ids, y)
    ensures x == y
  {
  }

  /** Popping a pair takes the front twice. */
  lemma PopTakesTwice(q: Queue) returns (q1: Queue, a: nat)
    requires Ok(q) && |q.waiting| >= 2
    ensures (q1, a) == TakeFront(q) && q1.waiting != {}
    ensures PopPair(q) == (TakeFront(q1).0, Some((a, TakeFront(q1).1)))
  {
    var c := Compact(q);
    CompactTwice(q);
    hide Compact;
    var taken := TakeFront(q);
    q1, a := taken.0, taken.1;
    assert |q1.waiting| == |q.waiting| - 1;
  }

  /** The pair served from any queue: the foremost waiting player, and the foremost of the
      others. */
  lemma ServedPairIff(q: Queue, x: nat, y: nat)
    requires Ok(q) && |q.waiting| >= 2
    ensures PopPair(q).1 == Some((x, y)) <==> Foremost(q.order, q.waiting, x) && Foremost(q.order, q.waiting - {x}, y)
  {
    hide Compact, TakeFront, PopPair, First;
    var q1, a := PopTakesTwice(q);
    var k := TakeFrontServes(q);
    var k1 := TakeFrontServes(q1);
    var b := TakeFront(q1).1;
    assert Foremost(q.order, q.waiting - {a}, b);
    if Foremost(q.order, q.waiting, x) && Foremost(q.order, q.waiting - {x}, y) {
      ForemostUnique(q.order, q.waiting, x, a);
      ForemostUnique(q.order, q.waiting - {a}, y, b);
    }
  }

  lemma CompactTwice(q: Queue)
    ensures Compact(Compact(q)) == Compact(q)
  {
  }

  // ---------------------------------------------------------------- waiting time

  /** A queue with a clock and, for everyone who ever came, the time of the latest arrival. */
  datatype Hall = Hall(q: Queue, clock: nat, since: map<nat, nat>)

  datatype Visit = Arrive(id: nat) | Leave(id: nat) | Serve

  function Happen(h: Hall, v: Visit): (r: Hall)
    requires Ok(h.q)
    ensures Ok(r.q)
  {
    match v
    case Arrive(id) =>
      Hall(Push(h.q, id), h.clock + 1, if id in h.q.waiting then h.since else h.since[id := h.clock])
    case Leave(id) => h.(q := Remove(h.q, id), clock := h.clock + 1)
    case Serve => h.(q := PopPair(h.q).0, clock := h.clock + 1)
  }

  function HappenAll(h: Hall, vs: seq<Visit>): (r: Hall)
    requires Ok(h.q)
    ensures Ok(r.q)
    decreases |vs|
  {
    if vs == [] then h else HappenAll(Happen(h, vs[0]), vs[1..])
  }

  const EmptyHall: Hall := Hall(Empty, 0, map[])

  /** Last entries lie in the order of arrival. */
  ghost predicate Dated(h: Hall) {
    && Ok(h.q)
    && (forall a | a in h.q.waiting :: a in h.since && h.since[a] < h.clock)
    && (forall a, b | a in h.q.waiting && b in h.q.waiting && a != b ::
          h.since[a] < h.since[b] <==> Last(h.q.order, a) < Last(h.q.order, b))
  }

  lemma PushLast(order: seq<nat>, id: nat, a: nat)
    ensures Last(order + [id], id) == |order|
    ensures a in order && a != id ==> a in order + [id] && Last(order + [id], a) == Last(order, a)
  {
    LastIs(order + [id], id, |order|);
    if a in order && a != id {
      LastIs(order + [id], a, Last(order, a));
    }
  }

  lemma ArriveDated(h: Hall, id: nat)
    requires Dated(h)
    ensures Dated(Happen(h, Arrive(id)))
  {
    if id !in h.q.waiting {
      var r := Happen(h, Arrive(id));
      forall a | a in h.q.waiting
        ensures a in r.q.order && Last(r.q.order, a) == Last(h.q.order, a) && Last(r.q.order, id) == |h.q.order|
      {
        PushLast(h.q.order, id, a);
      }
      PushLast(h.q.order, id, id);
      hide Last;
      assert forall a | a in h.q.waiting :: r.since[a] == h.since[a] < r.since[id];
    }
  }

  lemma SuffixLast(order: seq<nat>, m: nat, a: nat)
    requires m <= |order| && a in order[m..]
    ensures Last(order[m..], a) + m == Last(order, a)
  {
    var k := Last(order[m..], a);
    assert order[k + m] == a;
    assert forall i | k + m < i < |order| :: order[i] == order[m..][i - m];
    LastIs(order, a, k + m);
  }

  lemma CutTwice(order: seq<nat>, k: nat, m: nat)
    requires k <= |order| && m <= |order[k..]|
    ensures order[k..][m..] == order[k + m..]
  {
  }

  /** Serving only cuts the deque from the front. */
  lemma ServeCuts(q: Queue) returns (m: nat)
    requires Ok(q)
    ensures m <= |q.order| && PopPair(q).0.order == q.order[m..] && PopPair(q).0.waiting <= q.waiting
  {
    if |q.waiting| < 2 {
      m := CompactCuts(q);
    } else {
      hide Compact, TakeFront, PopPair, FrontAt;
      var q1, a := PopTakesTwice(q);
      var k := TakeFrontIs(q);
      var k1 := TakeFrontIs(q1);
      m := k + 1 + k1 + 1;
      CutTwice(q.order, k + 1, k1 + 1);
    }
  }

  lemma ServeDated(h: Hall)
    requires Dated(h)
    ensures Dated(Happen(h, Serve))
  {
    var m := ServeCuts(h.q);
    var r := Happen(h, Serve);
    hide PopPair;
    forall a | a in r.q.waiting ensures a in r.q.order && Last(r.q.order, a) + m == Last(h.q.order, a) {
      SuffixLast(h.q.order, m, a);
    }
  }

  lemma {:induction false} AllDated(h: Hall, vs: seq<Visit>)
    requires Dated(h)
    ensures Dated(HappenAll(h, vs))
    decreases |vs|
  {
    if vs != [] {
      match vs[0] {
        case Arrive(id) => ArriveDated(h, id);
        case Leave(id) =>
        case Serve => ServeDated(h);
      }
      hide Dated, Happen;
      AllDated(Happen(h, vs[0]), vs[1..]);
    }
  }

  /** Of these ids `x` has waited longest. */
  ghost predicate Longest(since: map<nat, nat>, ids: set<nat>, x: nat) {
    x in ids && forall z | z in ids && z != x :: x in since && z in since && since[x] < since[z]
  }

  /** Nobody else who waits has an entry ahead of the first entry of `x`. */
  ghost predicate NobodyAhead(q: Queue, ids: set<nat>, x: nat)
    requires x in q.order
  {
    forall z | z in ids && z != x :: z !in q.order[..First(q.order, x)]
  }

  lemma ForemostIff(q: Queue, ids: set<nat>, x: nat)
    requires x in ids && forall z | z in ids :: z in q.order
    ensures Foremost(q.order, ids, x) <==> NobodyAhead(q, ids, x)
  {
    forall z | z in ids && z != x
      ensures z !in q.order[..First(q.order, x)] <==> First(q.order, x) < First(q.order, z)
    {
      AheadIff(q.order, z, First(q.order, x));
    }
  }

  /**
   First come, first served, exactly when.  After any arrivals, departures and servings, let
   `x` be the player who has waited longest of all and `y` the one who has waited longest of
   the others.  They are served, in that order, if and only if no other waiting player has
   an entry ahead of the first entry of `x`, and none but `x` ahead of that of `y`.
   */
  lemma ServedLongestWaitingIff(vs: seq<Visit>, x: nat, y: nat)
    requires
      var h := HappenAll(EmptyHall, vs);
      Longest(h.since, h.q.waiting, x) && Longest(h.since, h.q.waiting - {x}, y)
    ensures
      var q := HappenAll(EmptyHall, vs).q;
      && x in q.order && y in q.order
      && (PopPair(q).1 == Some((x, y)) <==> NobodyAhead(q, q.waiting, x) && NobodyAhead(q, q.waiting - {x}, y))
  {
    var q := HappenAll(EmptyHall, vs).q;
    hide HappenAll, PopPair, First, Longest, NobodyAhead;
    LongestAreTwo(HappenAll(EmptyHall, vs), x, y);
    ServedPairIff(q, x, y);
    ForemostIff(q, q.waiting, x);
    ForemostIff(q, q.waiting - {x}, y);
  }

  lemma LongestAreTwo(h: Hall, x: nat, y: nat)
    requires Longest(h.since, h.q.waiting, x) && Longest(h.since, h.q.waiting - {x}, y)
    ensures x in h.q.waiting && y in h.q.waiting - {x} && |h.q.waiting| >= 2
  {
    assert {x, y} <= h.q.waiting;
    assert |h.q.waiting| == |h.q.waiting - {x, y}| + |{x, y}|;
  }

  /** Every waiting player has one entry only: nobody who waits has left and come back while
      its old entry was still there. */
  ghost predicate NobodyReturned(q: Queue)
    requires Ok(q)
  {
    forall a | a in q.waiting :: First(q.order, a) == Last(q.order, a)
  }

  /** With fresh entries only, the two who have waited longest are served, in their order. */
  lemma FreshEntriesServeInOrder(vs: seq<Visit>, x: nat, y: nat)
    requires
      var h := HappenAll(EmptyHall, vs);
      NobodyReturned(h.q) && Longest(h.since, h.q.waiting, x) && Longest(h.since, h.q.waiting - {x}, y)
    ensures PopPair(HappenAll(EmptyHall, vs).q).1 == Some((x, y))
  {
    var h := HappenAll(EmptyHall, vs);
    assert Dated(EmptyHall);
    hide HappenAll, PopPair, First, Last;
    AllDated(EmptyHall, vs);
    LongestAreTwo(h, x, y);
    ServedPairIff(h.q, x, y);
  }
}
