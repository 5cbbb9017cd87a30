/**
 A double-buffered task queue: producers append to the front buffer, the consumer swaps the
 whole buffer out and runs it outside the lock.  Both the loops' task queues and the storage
 writer are built on it.
 */
module SwapQueue {
  /** `done` and `posted` are the history: what ran and what was ever posted. */
  datatype Queue<T> = Queue(front: seq<T>, batch: seq<T>, done: seq<T>, posted: seq<T>)

  function Empty<T>(): Queue<T> {
    Queue([], [], [], [])
  }

  function Push<T>(q: Queue<T>, t: T): Queue<T> {
    q.(front := q.front + [t], posted := q.posted + [t])
  }

  function Swap<T>(q: Queue<T>): Queue<T> {
    q.(front := q.batch, batch := q.front)
  }

  function RunOne<T>(q: Queue<T>): Queue<T>
    requires q.batch != []
  {
    q.(batch := q.batch[1..], done := q.done + [q.batch[0]])
  }

  /** What is still to run, in order. */
  function Waiting<T>(q: Queue<T>): seq<T> {
    q.batch + q.front
  }

  /** Nothing is lost, doubled or reordered. */
  ghost predicate Ordered<T>(q: Queue<T>) {
    q.done + q.batch + q.front == q.posted
  }

  /** Seen from outside the queue is one plain FIFO sequence: a post appends, running takes
      the first, and the swap does not show. */
  lemma PushWaits<T>(q: Queue<T>, t: T)
    ensures Waiting(Push(q, t)) == Waiting(q) + [t] && (Ordered(q) ==> Ordered(Push(q, t)))
  {
    assert q.batch + (q.front + [t]) == (q.batch + q.front) + [t];
    assert q.done + q.batch + (q.front + [t]) == (q.done + q.batch + q.front) + [t];
  }

  lemma SwapDoesNotShow<T>(q: Queue<T>)
    requires q.batch == []
    ensures Waiting(Swap(q)) == Waiting(q) && (Ordered(q) ==> Ordered(Swap(q)))
  {
    assert q.done + [] + q.front == q.done + q.front + [];
  }

  lemma RunTakesFirst<T>(q: Queue<T>)
    requires q.batch != []
    ensures Waiting(q) != [] && Waiting(RunOne(q)) == Waiting(q)[1..]
    ensures RunOne(q).done == q.done + [Waiting(q)[0]] && (Ordered(q) ==> Ordered(RunOne(q)))
  {
    assert q.batch == [q.batch[0]] + q.batch[1..];
    assert (q.done + [q.batch[0]]) + q.batch[1..] == q.done + q.batch;
  }
}

/** The storage writer's protocol: producers, a worker and a condition variable. */
module WriterModel {
  import opened SwapQueue

  /** Where the worker is: about to look at the queue, asleep on the condition, running a
      batch outside the lock, or gone. */
  datatype Phase = Looking | Asleep | Running | Gone

  /** `owed` counts the threads between changing the shared state and notifying; `atStop` is
      how much had been posted when the stop was requested. */
  datatype Writer<T> = Writer(q: Queue<T>, stop: bool, phase: Phase, owed: nat, atStop: nat)

  function New<T>(): Writer<T> {
    Writer(Empty(), false, Looking, 0, 0)
  }

  datatype Step<T> =
    | Enqueue(t: T)
    | Stop
    | Notify
    | WakeUp
    | Look
    | RunTask
    | EndBatch

  predicate Enabled<T>(w: Writer<T>, s: Step<T>) {
    match s
    case Enqueue(_) => true
    case Stop => !w.stop
    case Notify => w.owed > 0
    case WakeUp => w.phase == Asleep
    case Look => w.phase == Looking
    case RunTask => w.phase == Running && w.q.batch != []
    case EndBatch => w.phase == Running && w.q.batch == []
  }

  /** `WakeUp` is a spurious wake-up.  `Look` is the worker holding the lock: it goes to
      sleep, leaves, or takes everything there is. */
  function Next<T>(w: Writer<T>, s: Step<T>): Writer<T>
    requires Enabled(w, s)
  {
    match s
    case Enqueue(t) => w.(q := Push(w.q, t), owed := w.owed + 1)
    case Stop => w.(stop := true, owed := w.owed + 1, atStop := |w.q.posted|)
    case Notify => w.(owed := w.owed - 1, phase := if w.phase == Asleep then Looking else w.phase)
    case WakeUp => w.(phase := Looking)
    case Look =>
      if !w.stop && w.q.front == [] then w.(phase := Asleep)
      else if w.q.front == [] then w.(phase := Gone)
      else w.(q := Swap(w.q), phase := Running)
    case RunTask => w.(q := RunOne(w.q))
    case EndBatch => w.(phase := Looking)
  }

  ghost predicate Inv<T>(w: Writer<T>) {
    && Ordered(w.q)
    && (w.phase != Running ==> w.q.batch == [])
    && (w.phase == Asleep && (w.q.front != [] || w.stop) ==> w.owed > 0)
    && (w.stop ==> w.atStop <= |w.q.posted|)
    && (w.phase == Gone ==> w.stop && w.atStop <= |w.q.done|)
  }

  lemma StepKeepsInv<T>(w: Writer<T>, s: Step<T>)
    requires Inv(w) && Enabled(w, s)
    ensures Inv(Next(w, s))
  {
    match s {
      case Enqueue(t) => PushWaits(w.q, t);
      case RunTask => RunTakesFirst(w.q);
      case Look =>
        if w.q.front != [] {
          SwapDoesNotShow(w.q);
        }
      case _ =>
    }
  }

  ghost predicate Reaches<T>(w: Writer<T>, ss: seq<Step<T>>, w': Writer<T>)
    decreases |ss|
  {
    if ss == [] then w' == w
    else Enabled(w, ss[0]) && Reaches(Next(w, ss[0]), ss[1..], w')
  }

  lemma {:induction false} RunKeepsInv<T>(w: Writer<T>, ss: seq<Step<T>>, w': Writer<T>)
    requires Inv(w) && Reaches(w, ss, w')
    ensures Inv(w')
    decreases |ss|
  {
    if ss != [] {
      hide Inv, Next;
      StepKeepsInv(w, ss[0]);
      RunKeepsInv(Next(w, ss[0]), ss[1..], w');
    }
  }

  /**
   In every run: what has run, then the rest of the batch, then the front buffer is the
   posting order; a worker asleep with work or a stop to see is owed a notification; and a
   worker that is gone ran, in order and once each, everything posted before the stop.
   */
  lemma NothingLost<T>(ss: seq<Step<T>>, w: Writer<T>)
    requires Reaches(New(), ss, w)
    ensures w.q.done + w.q.batch + w.q.front == w.q.posted
    ensures w.phase == Asleep && (w.q.front != [] || w.stop) ==> w.owed > 0
    ensures w.phase == Gone ==> w.stop && w.atStop <= |w.q.done| && w.q.done <= w.q.posted
  {
    hide Reaches;
    RunKeepsInv(New(), ss, w);
    if w.phase == Gone {
      assert w.q.done + [] + w.q.front == w.q.posted;
    }
  }

  /** The worker leaves only with everything posted so far, before or after the stop, run. */
  lemma LeavesWhenDone<T>(ss: seq<Step<T>>, w: Writer<T>, s: Step<T>)
    requires Reaches(New(), ss, w) && Enabled(w, s) && w.phase != Gone && Next(w, s).phase == Gone
    ensures w.stop && Next(w, s).q.done == Next(w, s).q.posted
  {
    RunKeepsInv(New(), ss, w);
    assert w.q.done + [] + [] == w.q.done;
  }

  // ---------------------------------------------------------------- the flush on destruction

  /** How far a stopping worker is from its end. */
  function Left<T>(w: Writer<T>): nat {
    match w.phase
    case Gone => 0
    case Looking => if w.q.front == [] then 1 else |w.q.front| + 3
    case Asleep => 1 + if w.q.front == [] then 1 else |w.q.front| + 3
    case Running => |w.q.batch| + 1 + if w.q.front == [] then 1 else |w.q.front| + 3
  }

  /** Once a stop is requested and nobody posts any more, every step, whoever takes it,
      brings the end closer. */
  lemma EveryStepMovesOn<T>(w: Writer<T>, s: Step<T>)
    requires Inv(w) && w.stop && Enabled(w, s) && !s.Enqueue?
    ensures Left(Next(w, s)) + Next(w, s).owed < Left(w) + w.owed
    ensures Next(w, s).stop && Next(w, s).q.posted == w.q.posted
  {
  }

  /** No step is possible but another post. */
  ghost predicate Stuck<T(!new)>(w: Writer<T>) {
    forall s: Step<T> | Enabled(w, s) :: s.Enqueue?
  }

  lemma StuckIsGone<T(!new)>(w: Writer<T>)
    requires Inv(w) && w.stop && Stuck(w)
    ensures w.phase == Gone
  {
    assert !Enabled(w, Look) && !Enabled(w, WakeUp) && !Enabled(w, RunTask) && !Enabled(w, EndBatch);
  }

  /** Nothing was posted after the worker had left. */
  ghost predicate GoneIsDone<T>(w: Writer<T>) {
    w.phase == Gone ==> w.q.front == []
  }

  /**
   A stop always gets through.  From every state in which it has been requested, every run
   without further posts, whatever the schedule and the spurious wake-ups, is at most so
   long; and one that cannot go on has ended with the worker gone and everything posted run.
   */
  lemma {:induction false} StopFlushes<T(!new)>(w: Writer<T>, ss: seq<Step<T>>, w': Writer<T>)
    requires Inv(w) && w.stop && GoneIsDone(w) && Reaches(w, ss, w') && forall i | 0 <= i < |ss| :: !ss[i].Enqueue?
    ensures |ss| <= Left(w) + w.owed
    ensures Stuck(w') ==> w'.phase == Gone && w'.q.done == w.q.posted == w'.q.posted
    decreases |ss|
  {
    if ss == [] {
      if Stuck(w) {
        StuckIsGone(w);
        assert w.q.done + [] + [] == w.q.done;
      }
    } else {
      EveryStepMovesOn(w, ss[0]);
      StepKeepsInv(w, ss[0]);
      assert GoneIsDone(Next(w, ss[0]));
      hide Inv, Next, Left, Enabled, GoneIsDone, Stuck;
      StopFlushes(Next(w, ss[0]), ss[1..], w');
    }
  }
}

/** The storage writer as it is programmed, one method for each section under the lock or
    outside it. */
module AsyncWriter {
  import opened SwapQueue
  import opened WriterModel

  class AsyncWriter<T(==)> {
    var front: seq<T>
    var stop: bool
    var batch: seq<T>
    var phase: Phase
    // History, and the notifications still to come.
    ghost var done: seq<T>
    ghost var posted: seq<T>
    ghost var owed: nat
    ghost var atStop: nat

    ghost function State(): Writer<T>
      reads this
    {
      Writer(Queue(front, batch, done, posted), stop, phase, owed, atStop)
    }

    constructor ()
      ensures State() == New()
    {
      front, stop, batch, phase := [], false, [], Looking;
      done, posted, owed, atStop := [], [], 0, 0;
    }

    method Enqueue(t: T)
      modifies this
      ensures State() == Next(old(State()), Step.Enqueue(t))
    {
      front := front + [t];
      posted := posted + [t];
      owed := owed + 1;
    }

    method RequestStop()
      requires !stop
      modifies this
      ensures State() == Next(old(State()), Stop)
    {
      stop := true;
      atStop := |posted|;
      owed := owed + 1;
    }

    method NotifyOne()
      requires owed > 0
      modifies this
      ensures State() == Next(old(State()), Notify)
    {
      owed := owed - 1;
      if phase == Asleep {
        phase := Looking;
      }
    }

    /** The worker with the lock: wait, leave, or swap the buffers. */
    method LookAtQueue()
      requires phase == Looking
      modifies this
      ensures State() == Next(old(State()), Look)
    {
      if !(stop || |front| != 0) {
        phase := Asleep;
      } else if |front| == 0 && stop {
        phase := Gone;
      } else {
        batch, front := front, batch;
        phase := Running;
      }
    }

    /** The worker without the lock: the whole batch in order, while other threads post.
        `meanwhile(i)` is what they post before task `i` has run. */
    method RunBatch(meanwhile: nat -> seq<T>)
      requires phase == Running
      modifies this
      ensures Reaches(old(State()), BatchSteps(old(|batch|), meanwhile), State())
      ensures batch == [] && phase == Looking && done == old(done) + old(batch) && stop == old(stop)
      ensures front == old(front) + Posted(old(|batch|), meanwhile)
    {
      hide Next, Reaches;
      ghost var all := old(batch);
      var n, i := |batch|, 0;
      ReachesItself(State());
      assert all[0..] == all;
      while i < n
        invariant 0 <= i <= n == |all| && phase == Running && batch == all[i..] && stop == old(stop)
        invariant done == old(done) + all[..i] && front == old(front) + Posted(i, meanwhile)
        invariant Reaches(old(State()), TaskSteps(i, meanwhile), State())
      {
        ghost var w := State();
        PostAll(meanwhile(i));
        ReachesMore(old(State()), TaskSteps(i, meanwhile), w, PostSteps(meanwhile(i)), State());
        ghost var w1 := State();
        done := done + [batch[0]];
        batch := batch[1..];
        RunTaskIs(w1, State());
        ReachesMore(old(State()), TaskSteps(i, meanwhile) + PostSteps(meanwhile(i)), w1, [RunTask], State());
        assert all[..i + 1] == all[..i] + [all[i]] && all[i..][1..] == all[i + 1..];
        i := i + 1;
      }
      assert all[..n] == all;
      ghost var w := State();
      phase := Looking;
      EndBatchIs(w, State());
      ReachesMore(old(State()), TaskSteps(n, meanwhile), w, [EndBatch], State());
    }

    /** Other threads' posts, each followed by its notification. */
    method PostAll(ts: seq<T>)
      requires phase == Running
      modifies this
      ensures Reaches(old(State()), PostSteps(ts), State())
      ensures front == old(front) + ts && phase == Running && batch == old(batch) && stop == old(stop)
      ensures done == old(done)
    {
      hide Reaches;
      ReachesItself(State());
      var i := 0;
      while i < |ts|
        invariant 0 <= i <= |ts| && front == old(front) + ts[..i] && done == old(done)
        invariant phase == Running && batch == old(batch) && stop == old(stop)
        invariant Reaches(old(State()), PostSteps(ts[..i]), State())
      {
        ghost var w := State();
        Enqueue(ts[i]);
        ghost var w1 := State();
        NotifyOne();
        PostIs(w, ts[i], w1, State());
        assert ts[..i + 1] == ts[..i] + [ts[i]];
        ReachesMore(old(State()), PostSteps(ts[..i]), w, [Step.Enqueue(ts[i]), Notify], State());
        i := i + 1;
      }
      assert ts[..i] == ts;
    }
  }

  function PostSteps<T>(ts: seq<T>): seq<Step<T>> {
    if ts == [] then [] else PostSteps(ts[..|ts| - 1]) + [Step.Enqueue(ts[|ts| - 1]), Notify]
  }

  /** The steps up to the end of task `n - 1`. */
  function TaskSteps<T>(n: nat, meanwhile: nat -> seq<T>): seq<Step<T>> {
    if n == 0 then [] else TaskSteps(n - 1, meanwhile) + PostSteps(meanwhile(n - 1)) + [RunTask]
  }

  function BatchSteps<T>(n: nat, meanwhile: nat -> seq<T>): seq<Step<T>> {
    TaskSteps(n, meanwhile) + [EndBatch]
  }

  function Posted<T>(n: nat, meanwhile: nat -> seq<T>): seq<T> {
    if n == 0 then [] else Posted(n - 1, meanwhile) + meanwhile(n - 1)
  }

  lemma ReachesItself<T>(w: Writer<T>)
    ensures Reaches(w, [], w)
  {
  }

  lemma {:induction false} ReachesMore<T>(w: Writer<T>, a: seq<Step<T>>, w1: Writer<T>, b: seq<Step<T>>, w2: Writer<T>)
    requires Reaches(w, a, w1) && Reaches(w1, b, w2)
    ensures Reaches(w, a + b, w2)
    decreases |a|
  {
    hide Next, Enabled;
    if a == [] {
      assert a + b == b;
    } else {
      assert (a + b)[0] == a[0] && (a + b)[1..] == a[1..] + b;
      ReachesMore(Next(w, a[0]), a[1..], w1, b, w2);
    }
  }

  lemma PostIs<T>(w: Writer<T>, t: T, w1: Writer<T>, w2: Writer<T>)
    requires w1 == Next(w, Step.Enqueue(t)) && w1.owed > 0 && w2 == Next(w1, Notify)
    ensures Reaches(w, [Step.Enqueue(t), Notify], w2)
  {
    hide Next;
    assert [Step.Enqueue(t), Notify][1..] == [Notify];
    assert Reaches(w1, [Notify], w2);
  }

  lemma RunTaskIs<T>(w: Writer<T>, w1: Writer<T>)
    requires w.phase == Running && w.q.batch != [] && w1 == w.(q := RunOne(w.q))
    ensures Reaches(w, [RunTask], w1)
  {
    assert Next(w, RunTask) == w1;
  }

  lemma EndBatchIs<T>(w: Writer<T>, w1: Writer<T>)
    requires w.phase == Running && w.q.batch == [] && w1 == w.(phase := Looking)
    ensures Reaches(w, [EndBatch], w1)
  {
    assert Next(w, EndBatch) == w1;
  }
}
