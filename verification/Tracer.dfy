/** agent/trace/tracer.py: the writer of trace events. */
module Tracer {
  import opened Basics

  // The bounded queue between recording and writing. A producer's record call and each of the writer
  // thread's two halves (taking an event, writing it) are the steps; steps of producers and writer
  // interleave freely.

  /** `inHand` is the event the writer thread holds, `recorded` the history of record calls. */
  datatype State<E> = State(
    started: bool, queue: seq<E>, inHand: Option<E>, written: seq<E>, dropped: nat, recorded: seq<E>)

  /** Whether starting the writer thread, or writing to the file, raises is part of the step. */
  datatype Step<E> = Record(event: E, startRaises: bool) | Take | Write(raises: bool)

  /** queue.Queue(maxsize): a size of zero or less is no bound. */
  predicate IsFull(size: int, queued: nat) {
    0 < size <= queued
  }

  predicate Enabled<E>(s: State<E>, step: Step<E>) {
    match step
    case Record(_, _) => true
    case Take => s.started && s.inHand.None? && s.queue != []
    case Write(_) => s.inHand.Some?
  }

  function Next<E>(size: int, s: State<E>, step: Step<E>): State<E>
    requires Enabled(s, step)
  {
    match step
    case Record(e, startRaises) =>
      var r := s.(recorded := s.recorded + [e]);
      if !s.started && startRaises then r.(dropped := r.dropped + 1)
      else if IsFull(size, |r.queue|) then r.(started := true, dropped := r.dropped + 1)
      else r.(started := true, queue := r.queue + [e])
    case Take => s.(inHand := Some(s.queue[0]), queue := s.queue[1..])
    case Write(raises) =>
      if raises then s.(inHand := None, dropped := s.dropped + 1)
      else s.(inHand := None, written := s.written + [s.inHand.value])
  }

  class JsonlTracer<E> {
    const maxQueueSize: int
    var started: bool
    var queue: seq<E>
    var inHand: Option<E>
    var written: seq<E>
    var droppedCount: nat
    ghost var recorded: seq<E>

    ghost function Value(): State<E>
      reads this
    {
      State(started, queue, inHand, written, droppedCount, recorded)
    }

    constructor (size: int)
      ensures maxQueueSize == size && Value() == State(false, [], None, [], 0, [])
    {
      maxQueueSize := size;
      started, queue, inHand, written, droppedCount, recorded := false, [], None, [], 0, [];
    }

    method RecordEvent(e: E, startRaises: bool)
      modifies this
      ensures Value() == Next(maxQueueSize, old(Value()), Record(e, startRaises))
    {
      recorded := recorded + [e];
      if !started {
        if startRaises {
          droppedCount := droppedCount + 1;
          return;
        }
        started := true;
      }
      if IsFull(maxQueueSize, |queue|) {
        droppedCount := droppedCount + 1;
      } else {
        queue := queue + [e];
      }
    }

    method TakeEvent()
      requires Enabled(Value(), Take)
      modifies this
      ensures Value() == Next(maxQueueSize, old(Value()), Take)
    {
      inHand := Some(queue[0]);
      queue := queue[1..];
    }

    method WriteEvent(raises: bool)
      requires Enabled(Value(), Write(raises))
      modifies this
      ensures Value() == Next(maxQueueSize, old(Value()), Write(raises))
    {
      if raises {
        droppedCount := droppedCount + 1;
      } else {
        written := written + [inHand.value];
      }
      inHand := None;
    }
  }

  // ---------------------------------------------------------------- whole runs

  predicate IsRun<E(==)>(size: int, states: seq<State<E>>, steps: seq<Step<E>>) {
    && |states| == |steps| + 1 && states[0] == State(false, [], None, [], 0, [])
    && forall i :: 0 <= i < |steps| ==> Enabled(states[i], steps[i]) && states[i + 1] == Next(size, states[i], steps[i])
  }

  function Held<E>(s: State<E>): seq<E> {
    if s.inHand.None? then [] else [s.inHand.value]
  }

  /** The events that are written, in hand or queued, in this order. */
  function Moving<E>(s: State<E>): seq<E> {
    s.written + Held(s) + s.queue
  }

  /** The events of `a` occur in `b` in the same order. */
  predicate Subsequence<E(==)>(a: seq<E>, b: seq<E>) {
    a == []
    || (b != [] && (
          (a[|a| - 1] == b[|b| - 1] && Subsequence(a[..|a| - 1], b[..|b| - 1])) || Subsequence(a, b[..|b| - 1])))
  }

  /** Leaving an event out of a subsequence. */
  lemma {:induction false} SubsequenceWithout<E>(a: seq<E>, x: E, c: seq<E>, b: seq<E>)
    requires Subsequence(a + [x] + c, b)
    ensures Subsequence(a + c, b)
    decreases |b|
  {
    var whole := a + [x] + c;
    if a + c != [] {
      var init := b[..|b| - 1];
      if Subsequence(whole, init) {
        SubsequenceWithout(a, x, c, init);
      } else if c == [] {
        assert whole[..|whole| - 1] == a == a + c;
        assert init + [b[|b| - 1]] == b;
      } else {
        var less := c[..|c| - 1];
        assert whole[..|whole| - 1] == a + [x] + less;
        SubsequenceWithout(a, x, less, init);
        assert (a + c)[..|a + c| - 1] == a + less;
      }
    }
  }

  lemma {:induction false} SubsequencePrefix<E>(a: seq<E>, c: seq<E>, b: seq<E>)
    requires Subsequence(a + c, b)
    ensures Subsequence(a, b)
    decreases |c|
  {
    if c == [] {
      assert a + c == a;
    } else {
      assert a + c == a + [c[0]] + c[1..];
      SubsequenceWithout(a, c[0], c[1..], b);
      SubsequencePrefix(a, c[1..], b);
    }
  }

  /** What every step keeps: no event is lost without being counted, and the events on their way
      are in the order of their recording, before them those that were written. */
  predicate Conserved<E(==)>(size: int, s: State<E>) {
    && |s.recorded| == |s.written| + |Held(s)| + |s.queue| + s.dropped
    && Subsequence(Moving(s), s.recorded)
    && (s.dropped == 0 ==> Moving(s) == s.recorded)
    && (size > 0 ==> |s.queue| <= size)
    && (!s.started ==> s.queue == [] && s.inHand.None?)
  }

  lemma MovingAfterRecord<E>(size: int, s: State<E>, step: Step<E>)
    requires step.Record?
    ensures var t := Next(size, s, step);
      Moving(t) == (if t.dropped == s.dropped then Moving(s) + [step.event] else Moving(s))
  {
    assert s.written + Held(s) + (s.queue + [step.event]) == s.written + Held(s) + s.queue + [step.event];
  }

  lemma RecordConserves<E>(size: int, s: State<E>, step: Step<E>)
    requires Conserved(size, s) && step.Record?
    ensures Conserved(size, Next(size, s, step))
  {
    MovingAfterRecord(size, s, step);
  }

  lemma TakeConserves<E>(size: int, s: State<E>)
    requires Conserved(size, s) && Enabled(s, Take)
    ensures Conserved(size, Next(size, s, Take))
  {
    var t := Next(size, s, Take);
    assert t.written + Held(t) + t.queue == s.written + Held(s) + s.queue;
  }

  lemma WriteConserves<E>(size: int, s: State<E>, raises: bool)
    requires Conserved(size, s) && Enabled(s, Write(raises))
    ensures Conserved(size, Next(size, s, Write(raises)))
  {
    var t := Next(size, s, Write(raises));
    var e := s.inHand.value;
    assert s.written + Held(s) + s.queue == s.written + [e] + s.queue;
    if raises {
      SubsequenceWithout(s.written, e, s.queue, s.recorded);
      assert t.written + Held(t) + t.queue == s.written + s.queue;
    } else {
      assert t.written + Held(t) + t.queue == s.written + [e] + s.queue;
    }
  }

  lemma StepConserves<E>(size: int, s: State<E>, step: Step<E>)
    requires Conserved(size, s) && Enabled(s, step)
    ensures Conserved(size, Next(size, s, step))
  {
    match step
    case Record(_, _) => RecordConserves(size, s, step);
    case Take => TakeConserves(size, s);
    case Write(raises) => WriteConserves(size, s, raises);
  }

  lemma WrittenIsSubsequence<E>(size: int, s: State<E>)
    requires Conserved(size, s)
    ensures Subsequence(s.written, s.recorded)
  {
    assert s.written + Held(s) + s.queue == s.written + (Held(s) + s.queue);
    SubsequencePrefix(s.written, Held(s) + s.queue, s.recorded);
  }

  /** In every interleaving, at every step: recorded = written + in hand + queued + dropped, what
      was written is a subsequence of what was recorded in order, all of it when nothing was
      dropped and nothing is on its way, and the queue keeps its bound. */
  lemma {:induction false} TraceConservation<E>(size: int, states: seq<State<E>>, steps: seq<Step<E>>, k: nat)
    requires IsRun(size, states, steps) && k < |states|
    ensures Conserved(size, states[k]) && Subsequence(states[k].written, states[k].recorded)
  {
    if k > 0 {
      TraceConservation(size, states, steps, k - 1);
      assert states[k - 1 + 1] == Next(size, states[k - 1], steps[k - 1]);
      StepConserves(size, states[k - 1], steps[k - 1]);
    }
    WrittenIsSubsequence(size, states[k]);
  }

  // ---------------------------------------------------------------- runs told by their steps alone

  /** The writer is started by the first record call that can start it. */
  predicate WasStarted<E>(steps: seq<Step<E>>, k: nat)
    requires k <= |steps|
  {
    exists i :: 0 <= i < k && steps[i].Record? && !steps[i].startRaises
  }

  function Takes<E>(steps: seq<Step<E>>, k: nat): nat
    requires k <= |steps|
  {
    if k == 0 then 0 else Takes(steps, k - 1) + if steps[k - 1].Take? then 1 else 0
  }

  function Writes<E>(steps: seq<Step<E>>, k: nat): nat
    requires k <= |steps|
  {
    if k == 0 then 0 else Writes(steps, k - 1) + if steps[k - 1].Write? then 1 else 0
  }

  /** The record call finds no writer and cannot start one, or the queue holds as many events as it
      may: those accepted before and not yet taken. */
  predicate IsRefused<E>(size: int, steps: seq<Step<E>>, k: nat)
    requires k < |steps| && steps[k].Record?
    decreases k, 1
  {
    || (!WasStarted(steps, k) && steps[k].startRaises)
    || (size > 0 && |Accepted(size, steps, k)| - Takes(steps, k) >= size)
  }

  /** The events of the record calls that are not refused, in order. */
  function Accepted<E>(size: int, steps: seq<Step<E>>, k: nat): seq<E>
    requires k <= |steps|
    decreases k, 0
  {
    if k == 0 then []
    else Accepted(size, steps, k - 1)
         + if steps[k - 1].Record? && !IsRefused(size, steps, k - 1) then [steps[k - 1].event] else []
  }

  /** How many events are lost: by a refused record call or a raising write. */
  function Lost<E>(size: int, steps: seq<Step<E>>, k: nat): nat
    requires k <= |steps|
  {
    if k == 0 then 0
    else
      var step := steps[k - 1];
      Lost(size, steps, k - 1)
      + if (step.Record? && IsRefused(size, steps, k - 1)) || (step.Write? && step.raises) then 1 else 0
  }

  /** The accepted events that the writer has written: of the i-th event it took, the i-th write. */
  function WrittenOf<E>(size: int, steps: seq<Step<E>>, k: nat): seq<E>
    requires k <= |steps|
  {
    if k == 0 then []
    else
      var step, i := steps[k - 1], Writes(steps, k - 1);
      WrittenOf(size, steps, k - 1)
      + if step.Write? && !step.raises && i < |Accepted(size, steps, k - 1)| then [Accepted(size, steps, k - 1)[i]]
        else []
  }

  /** The state that a run's first `k` steps leave, told by the steps alone. */
  predicate IsTold<E(==)>(size: int, steps: seq<Step<E>>, k: nat, s: State<E>)
    requires k <= |steps|
  {
    var accepted, takes, writes := Accepted(size, steps, k), Takes(steps, k), Writes(steps, k);
    && writes <= takes <= |accepted| && takes <= writes + 1
    && (s.started <==> WasStarted(steps, k))
    && s.queue == accepted[takes..]
    && (s.inHand.Some? <==> takes == writes + 1)
    && (s.inHand.Some? ==> s.inHand.value == accepted[takes - 1])
    && s.written == WrittenOf(size, steps, k)
    && s.dropped == Lost(size, steps, k)
  }

  lemma StartedNext<E>(steps: seq<Step<E>>, k: nat)
    requires k < |steps|
    ensures WasStarted(steps, k + 1) <==> WasStarted(steps, k) || (steps[k].Record? && !steps[k].startRaises)
  {}

  lemma RecordIsTold<E>(size: int, steps: seq<Step<E>>, k: nat, s: State<E>)
    requires k < |steps| && steps[k].Record? && IsTold(size, steps, k, s)
    ensures IsTold(size, steps, k + 1, Next(size, s, steps[k]))
  {
    StartedNext(steps, k);
  }

  lemma TakeIsTold<E>(size: int, steps: seq<Step<E>>, k: nat, s: State<E>)
    requires k < |steps| && steps[k].Take? && Enabled(s, steps[k]) && IsTold(size, steps, k, s)
    ensures IsTold(size, steps, k + 1, Next(size, s, steps[k]))
  {
    StartedNext(steps, k);
  }

  lemma WriteIsTold<E>(size: int, steps: seq<Step<E>>, k: nat, s: State<E>)
    requires k < |steps| && steps[k].Write? && Enabled(s, steps[k]) && IsTold(size, steps, k, s)
    ensures IsTold(size, steps, k + 1, Next(size, s, steps[k]))
  {
    StartedNext(steps, k);
  }

  /** In every interleaving: which events are refused, queued, in hand, written and lost follows
      from the steps alone. An event that finds a writer and room is queued, and what is queued is
      taken and written in order. */
  lemma {:induction false} TraceIsTold<E>(size: int, states: seq<State<E>>, steps: seq<Step<E>>, k: nat)
    requires IsRun(size, states, steps) && k < |states|
    ensures IsTold(size, steps, k, states[k])
  {
    if k > 0 {
      TraceIsTold(size, states, steps, k - 1);
      assert states[k - 1 + 1] == Next(size, states[k - 1], steps[k - 1]);
      match steps[k - 1]
      case Record(_, _) => RecordIsTold(size, steps, k - 1, states[k - 1]);
      case Take => TakeIsTold(size, steps, k - 1, states[k - 1]);
      case Write(_) => WriteIsTold(size, steps, k - 1, states[k - 1]);
    }
  }
}
