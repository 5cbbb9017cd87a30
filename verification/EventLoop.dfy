/** A loop's task queue and its wake-up descriptor. */
module LoopModel {
  import opened SwapQueue

  /** Where the loop's thread is: blocked in poll, past it with the wake-up counter read,
      or running the tasks it swapped out. */
  datatype Phase = Polling | Woken | Running

  /** `counter` is the value of the event descriptor; `owed` counts the threads that have
      queued a task and not written the descriptor yet. */
  datatype Loop<T> = Loop(q: Queue<T>, phase: Phase, counter: nat, owed: nat)

  function New<T>(): Loop<T> {
    Loop(Empty(), Polling, 0, 0)
  }

  datatype Step<T> =
    | Queue(t: T)
    | WriteDescriptor
    | WakeUp
    | OtherEvent
    | SwapOut
    | RunTask
    | EndRound

  predicate Enabled<T>(l: Loop<T>, s: Step<T>) {
    match s
    case Queue(_) => true
    case WriteDescriptor => l.owed > 0
    case WakeUp => l.phase == Polling && l.counter > 0
    case OtherEvent => l.phase == Polling
    case SwapOut => l.phase == Woken
    case RunTask => l.phase == Running && l.q.batch != []
    case EndRound => l.phase == Running && l.q.batch == []
  }

  /** `OtherEvent` is poll returning for another descriptor or a timeout: the counter is left
      alone.  A task may queue further tasks while it runs. */
  function Next<T>(l: Loop<T>, s: Step<T>): Loop<T>
    requires Enabled(l, s)
  {
    match s
    case Queue(t) => l.(q := Push(l.q, t), owed := l.owed + 1)
    case WriteDescriptor => l.(owed := l.owed - 1, counter := l.counter + 1)
    case WakeUp => l.(phase := Woken, counter := 0)
    case OtherEvent => l.(phase := Woken)
    case SwapOut => l.(phase := Running, q := Swap(l.q))
    case RunTask => l.(q := RunOne(l.q))
    case EndRound => l.(phase := Polling)
  }

  ghost predicate Inv<T>(l: Loop<T>) {
    && Ordered(l.q)
    && (l.phase != Running ==> l.q.batch == [])
    && (l.phase != Woken && l.q.front != [] ==> l.counter > 0 || l.owed > 0)
  }

  lemma StepKeepsInv<T>(l: Loop<T>, s: Step<T>)
    requires Inv(l) && Enabled(l, s)
    ensures Inv(Next(l, s))
  {
    match s {
      case Queue(t) => PushWaits(l.q, t);
      case RunTask => RunTakesFirst(l.q);
      case SwapOut => SwapDoesNotShow(l.q);
      case _ =>
    }
  }

  ghost predicate Reaches<T>(l: Loop<T>, ss: seq<Step<T>>, l': Loop<T>)
    decreases |ss|
  {
    if ss == [] then l' == l else Enabled(l, ss[0]) && Reaches(Next(l, ss[0]), ss[1..], l')
  }

  lemma {:induction false} RunKeepsInv<T>(l: Loop<T>, ss: seq<Step<T>>, l': Loop<T>)
    requires Inv(l) && Reaches(l, ss, l')
    ensures Inv(l')
    decreases |ss|
  {
    if ss != [] {
      hide Inv, Next;
      StepKeepsInv(l, ss[0]);
      RunKeepsInv(Next(l, ss[0]), ss[1..], l');
    }
  }

  /** The queue is a first-in first-out channel: in every run, tasks ran in the order they
      were queued, none twice, and what has not run is exactly what waits. */
  lemma Channel<T>(ss: seq<Step<T>>, l: Loop<T>)
    requires Reaches(New(), ss, l)
    ensures l.q.done <= l.q.posted && l.q.done + Waiting(l.q) == l.q.posted
    ensures l.phase == Polling && Waiting(l.q) != [] ==> l.counter > 0 || l.owed > 0
  {
    hide Reaches;
    RunKeepsInv(New(), ss, l);
    assert l.q.done + (l.q.batch + l.q.front) == l.q.done + l.q.batch + l.q.front;
  }

  /** How each step looks from outside: only a post and a run change what waits. */
  lemma StepIsFifo<T>(l: Loop<T>, s: Step<T>)
    requires Inv(l) && Enabled(l, s)
    ensures
      var l' := Next(l, s);
      match s
      case Queue(t) => Waiting(l'.q) == Waiting(l.q) + [t] && l'.q.done == l.q.done
      case RunTask => Waiting(l.q) != [] && Waiting(l'.q) == Waiting(l.q)[1..] && l'.q.done ==
        l.q.done + [Waiting(l.q)[0]]
      case _ => Waiting(l'.q) == Waiting(l.q) && l'.q.done == l.q.done
  {
    match s {
      case Queue(t) => PushWaits(l.q, t);
      case RunTask => RunTakesFirst(l.q);
      case SwapOut => SwapDoesNotShow(l.q);
      case _ =>
    }
  }

  // ---------------------------------------------------------------- no task is forgotten

  /** How many steps the loop's thread and the threads that owe a write can still take. */
  function Left<T>(l: Loop<T>): nat {
    |l.q.batch| + |l.q.front| + 5 * l.owed + (if l.counter > 0 then 4 else 0)
    + match l.phase case Polling => 0 case Woken => 3 case Running => 2
  }

  lemma StepMovesOn<T>(l: Loop<T>, s: Step<T>)
    requires Inv(l) && Enabled(l, s) && !s.Queue?
    ensures Left(Next(l, s)) + (if s == OtherEvent then 0 else 4) <= Left(l) + 3
    ensures Next(l, s).q.posted == l.q.posted
  {
  }

  ghost function CountOther<T>(ss: seq<Step<T>>): nat {
    if ss == [] then 0 else (if ss[0] == OtherEvent then 1 else 0) + CountOther(ss[1..])
  }

  /** Nothing can happen but another post, or poll returning for some other reason. */
  ghost predicate Stuck<T(!new)>(l: Loop<T>) {
    forall s: Step<T> | Enabled(l, s) :: s.Queue? || s == OtherEvent
  }

  lemma StuckIsIdle<T(!new)>(l: Loop<T>)
    requires Inv(l) && Stuck(l)
    ensures l.q.done == l.q.posted
  {
    assert !Enabled(l, WriteDescriptor) && !Enabled(l, WakeUp) && !Enabled(l, SwapOut) && !Enabled(l, RunTask);
    assert !Enabled(l, EndRound);
    assert l.q.done + [] + [] == l.q.done;
  }

  /**
   Everything queued gets run.  Every run without further posts, whatever the schedule, is
   bounded, but for the times poll returns for another reason; and when nothing more can
   happen without one, everything posted has run: a blocked loop with work waiting is always
   woken by a write made or still owed.
   */
  lemma {:induction false} EverythingRuns<T(!new)>(l: Loop<T>, ss: seq<Step<T>>, l': Loop<T>)
    requires Inv(l) && Reaches(l, ss, l') && forall i | 0 <= i < |ss| :: !ss[i].Queue?
    ensures |ss| <= Left(l) + 4 * CountOther(ss)
    ensures Stuck(l') ==> l'.q.done == l.q.posted == l'.q.posted
    decreases |ss|
  {
    if ss == [] {
      if Stuck(l) {
        StuckIsIdle(l);
      }
    } else {
      StepMovesOn(l, ss[0]);
      StepKeepsInv(l, ss[0]);
      hide Inv, Next, Left, Enabled, Stuck;
      EverythingRuns(Next(l, ss[0]), ss[1..], l');
    }
  }

  // ---------------------------------------------------------------- composing runs

  lemma ReachesItself<T>(l: Loop<T>)
    ensures Reaches(l, [], l)
  {
  }

  lemma ReachesOne<T>(l: Loop<T>, s: Step<T>)
    requires Enabled(l, s)
    ensures Reaches(l, [s], Next(l, s))
  {
    hide Next;
    assert [s][1..] == [];
  }

  lemma {:induction false} ReachesMore<T>(l: Loop<T>, a: seq<Step<T>>, l1: Loop<T>, b: seq<Step<T>>, l2: Loop<T>)
    requires Reaches(l, a, l1) && Reaches(l1, b, l2)
    ensures Reaches(l, a + b, l2)
    decreases |a|
  {
    hide Next, Enabled;
    if a == [] {
      assert a + b == b;
    } else {
      assert (a + b)[0] == a[0] && (a + b)[1..] == a[1..] + b;
      ReachesMore(Next(l, a[0]), a[1..], l1, b, l2);
    }
  }
}

/** The task queue of a loop as it is programmed. */
module EventLoop {
  import opened SwapQueue
  import opened LoopModel

  /** A post as `queueInLoop` makes it: the task, then the write that wakes the loop. */
  function PostSteps<T>(ts: seq<T>): seq<Step<T>> {
    if ts == [] then [] else PostSteps(ts[..|ts| - 1]) + [Step.Queue(ts[|ts| - 1]), WriteDescriptor]
  }

  /** The steps up to the end of task `n - 1` of a round. */
  function TaskSteps<T>(n: nat, meanwhile: nat -> seq<T>): seq<Step<T>> {
    if n == 0 then [] else TaskSteps(n - 1, meanwhile) + [RunTask] + PostSteps(meanwhile(n - 1))
  }

  function RoundSteps<T>(n: nat, meanwhile: nat -> seq<T>): seq<Step<T>> {
    [SwapOut] + TaskSteps(n, meanwhile) + [EndRound]
  }

  /** What is queued during a round of `n` tasks. */
  function Queued<T>(n: nat, meanwhile: nat -> seq<T>): seq<T> {
    if n == 0 then [] else Queued(n - 1, meanwhile) + meanwhile(n - 1)
  }

  class EventLoop<T(==)> {
    var pending: seq<T>
    var counter: nat
    // Where the thread is, the tasks it has swapped out, and the history.
    ghost var phase: Phase
    ghost var batch: seq<T>
    ghost var owed: nat
    ghost var done: seq<T>
    ghost var posted: seq<T>

    ghost function State(): Loop<T>
      reads this
    {
      Loop(Queue.Queue(pending, batch, done, posted), phase, counter, owed)
    }

    constructor ()
      ensures State() == New()
    {
      pending, counter := [], 0;
      phase, batch, owed, done, posted := Polling, [], 0, [], [];
    }

    method QueueInLoop(t: T)
      modifies this
      ensures State() == Next(Next(old(State()), Step.Queue(t)), WriteDescriptor)
    {
      pending := pending + [t];
      posted := posted + [t];
      owed := owed + 1;
      counter := counter + 1;
      owed := owed - 1;
    }

    /** Poll has returned for the wake-up descriptor, and it is read. */
    method HandleWakeup()
      requires phase == Polling && counter > 0
      modifies this
      ensures State() == Next(old(State()), WakeUp)
    {
      counter := 0;
      phase := Woken;
    }

    /** Posts made while a task runs, by the task itself or by other threads. */
    method QueueAll(ts: seq<T>)
      modifies this
      ensures Reaches(old(State()), PostSteps(ts), State())
      ensures pending == old(pending) + ts && phase == old(phase) && batch == old(batch) && done == old(done)
    {
      hide Reaches;
      ReachesItself(State());
      var i := 0;
      while i < |ts|
        invariant 0 <= i <= |ts| && pending == old(pending) + ts[..i]
        invariant phase == old(phase) && batch == old(batch) && done == old(done)
        invariant Reaches(old(State()), PostSteps(ts[..i]), State())
      {
        ghost var l := State();
        QueueInLoop(ts[i]);
        ghost var l1 := Next(l, Step.Queue(ts[i]));
        ReachesOne(l, Step.Queue(ts[i]));
        ReachesOne(l1, WriteDescriptor);
        ReachesMore(l, [Step.Queue(ts[i])], l1, [WriteDescriptor], State());
        assert [Step.Queue(ts[i])] + [WriteDescriptor] == [Step.Queue(ts[i]), WriteDescriptor];
        assert ts[..i + 1] == ts[..i] + [ts[i]];
        ReachesMore(old(State()), PostSteps(ts[..i]), l, [Step.Queue(ts[i]), WriteDescriptor], State());
        i := i + 1;
      }
      assert ts[..i] == ts;
    }

    /** A round: what was pending when it began runs, in order; what is queued meanwhile, by
        those tasks or by other threads, waits for the next round.  `meanwhile(i)` is what is
        queued while task `i` runs. */
    method DoPendingFunctors(meanwhile: nat -> seq<T>)
      requires phase == Woken && batch == []
      modifies this
      ensures Reaches(old(State()), RoundSteps(old(|pending|), meanwhile), State())
      ensures phase == Polling && batch == [] && done == old(done) + old(pending)
      ensures pending == Queued(old(|pending|), meanwhile)
    {
      hide Reaches, Next;
      ReachesOne(State(), SwapOut);
      var functors := pending;
      pending := [];
      Swapped(old(State()), functors);
      batch, phase := functors, Running;
      ghost var start := State();
      RunTasks(functors, meanwhile);
      ghost var ran := State();
      ReachesMore(old(State()), [SwapOut], start, TaskSteps(|functors|, meanwhile), ran);
      phase := Polling;
      Ended(ran);
      ReachesMore(old(State()), [SwapOut] + TaskSteps(|functors|, meanwhile), ran, [EndRound], State());
    }

    method RunTasks(functors: seq<T>, meanwhile: nat -> seq<T>)
      requires phase == Running && batch == functors && pending == []
      modifies this
      ensures Reaches(old(State()), TaskSteps(|functors|, meanwhile), State())
      ensures phase == Running && batch == [] && done == old(done) + functors
      ensures pending == Queued(|functors|, meanwhile)
    {
      hide Reaches, Next;
      ReachesItself(State());
      assert functors[0..] == functors;
      var i := 0;
      while i < |functors|
        invariant 0 <= i <= |functors| && phase == Running && batch == functors[i..]
        invariant done == old(done) + functors[..i] && pending == Queued(i, meanwhile)
        invariant Reaches(old(State()), TaskSteps(i, meanwhile), State())
      {
        ghost var l := State();
        done := done + [functors[i]];
        batch := batch[1..];
        RunNext(l);
        ghost var l1 := State();
        ReachesMore(old(State()), TaskSteps(i, meanwhile), l, [RunTask], l1);
        QueueAll(meanwhile(i));
        ReachesMore(old(State()), TaskSteps(i, meanwhile) + [RunTask], l1, PostSteps(meanwhile(i)), State());
        assert functors[..i + 1] == functors[..i] + [functors[i]] && functors[i..][1..] == functors[i + 1..];
        i := i + 1;
      }
      assert functors[..i] == functors;
    }

    static lemma Swapped(l: Loop<T>, functors: seq<T>)
      requires l.phase == Woken && l.q.batch == [] && l.q.front == functors
      ensures Next(l, SwapOut) == l.(phase := Running, q := l.q.(front := [], batch := functors))
    {
    }

    static lemma RunNext(l: Loop<T>)
      requires l.phase == Running && l.q.batch != []
      ensures Reaches(l, [RunTask], l.(q := RunOne(l.q)))
    {
      ReachesOne(l, RunTask);
    }

    static lemma Ended(l: Loop<T>)
      requires l.phase == Running && l.q.batch == []
      ensures Reaches(l, [EndRound], l.(phase := Polling))
    {
      ReachesOne(l, EndRound);
    }
  }
}
