/** Payloads are taken in the order in which they were put, and stay what they were. */
module TaskOrder {
  import opened TaskQueue
  import opened TaskQueueRuns

  /** The payloads put in the run, in order. */
  function PutsOf(run: seq<Step>): seq<nat> {
    if run == [] then [] else (if run[0].Put? then [run[0].j] else []) + PutsOf(run[1..])
  }

  /** The payload is no longer queued. */
  predicate Leaves(q: Queue, to: Queue, j: nat) {
    At(q, j, Queued) && !At(to, j, Queued)
  }

  /** The payloads that leave the queue in the run, in order, one by each step of the worker. */
  ghost predicate TakesAre(c: Config, q: Queue, run: seq<Step>, taken: seq<nat>)
    requires IsRun(c, q, run)
    decreases |run|
  {
    if run == [] then taken == []
    else
      var to := Next(c, q, run[0]);
      if run[0].Take? then taken != [] && Leaves(q, to, taken[0]) && TakesAre(c, to, run[1..], taken[1..])
      else (forall j :: !Leaves(q, to, j)) && TakesAre(c, to, run[1..], taken)
  }

  /** The worker takes one payload, the one in front; no other step takes any. */
  lemma OneLeaves(c: Config, q: Queue, s: Step, j: nat)
    requires QueueHoldsQueued(q) && Enabled(q, s)
    ensures Leaves(q, Next(c, q, s), j) <==> s.Take? && j == q.waiting[0]
  {
    if s.Take? && At(q, j, Queued) {
      var k :| 0 <= k < |q.waiting| && q.waiting[k] == j;
    }
  }

  lemma {:induction false} TakesExist(c: Config, q: Queue, run: seq<Step>) returns (taken: seq<nat>)
    requires QueueHoldsQueued(q) && IsRun(c, q, run)
    ensures TakesAre(c, q, run, taken)
    decreases |run|
  {
    taken := [];
    if run != [] {
      QueueHoldsStep(c, q, run[0]);
      taken := TakesExist(c, Next(c, q, run[0]), run[1..]);
      forall j ensures Leaves(q, Next(c, q, run[0]), j) <==> run[0].Take? && j == q.waiting[0] {
        OneLeaves(c, q, run[0], j);
      }
      if run[0].Take? {
        var rest := taken;
        taken := [q.waiting[0]] + rest;
        assert taken[1..] == rest;
      }
    }
  }

  lemma FrontLeaves(waiting: seq<nat>, puts: seq<nat>, taken: seq<nat>, left: seq<nat>)
    requires waiting != [] && taken != [] && waiting[0] == taken[0] && waiting[1..] + puts == taken[1..] + left
    ensures waiting + puts == taken + left
  {
    assert waiting == [waiting[0]] + waiting[1..] && taken == [taken[0]] + taken[1..];
    assert waiting + puts == [waiting[0]] + (waiting[1..] + puts);
  }

  lemma NoneLeaves(waiting: seq<nat>, now: seq<nat>, puts: seq<nat>, rest: seq<nat>, put: seq<nat>)
    requires now == waiting + put && puts == put + rest
    ensures waiting + puts == now + rest
  {}

  lemma {:induction false} TakenInOrderFrom(c: Config, q: Queue, run: seq<Step>, taken: seq<nat>)
    requires QueueHoldsQueued(q) && IsRun(c, q, run) && TakesAre(c, q, run, taken)
    ensures q.waiting + PutsOf(run) == taken + Final(c, q, run).waiting
    decreases |run|
  {
    if run != [] {
      var to := Next(c, q, run[0]);
      QueueHoldsStep(c, q, run[0]);
      if run[0].Take? {
        OneLeaves(c, q, run[0], taken[0]);
        TakenInOrderFrom(c, to, run[1..], taken[1..]);
        FrontLeaves(q.waiting, PutsOf(run), taken, Final(c, q, run).waiting);
      } else {
        TakenInOrderFrom(c, to, run[1..], taken);
        NoneLeaves(q.waiting, to.waiting, PutsOf(run), PutsOf(run[1..]), if run[0].Put? then [run[0].j] else []);
      }
    }
  }

  /** First in, first out, over every run of the started queue: the payloads put, in order, are
      those that have left the queue, in order, and then those that wait. */
  lemma FirstInFirstOut(c: Config, run: seq<Step>) returns (taken: seq<nat>)
    requires IsRun(c, Started(c), run)
    ensures TakesAre(c, Started(c), run, taken)
    ensures PutsOf(run) == taken + Final(c, Started(c), run).waiting
  {
    taken := TakesExist(c, Started(c), run);
    TakenInOrderFrom(c, Started(c), run, taken);
    assert Started(c).waiting + PutsOf(run) == PutsOf(run);
  }

  // ---------------------------------------------------------------- payloads stay what they were

  predicate IsOf(q: Queue, j: nat, profile: string, task: string) {
    j in q.jobs && q.jobs[j].profile == profile && q.jobs[j].task == task
  }

  lemma {:induction false} PayloadStays(c: Config, q: Queue, run: seq<Step>, j: nat, profile: string, task: string)
    requires IsRun(c, q, run) && IsOf(q, j, profile, task)
    ensures IsOf(Final(c, q, run), j, profile, task)
    decreases |run|
  {
    if run != [] { PayloadStays(c, Next(c, q, run[0]), run[1..], j, profile, task); }
  }

  /** A payload keeps the profile and the task with which it was put. */
  lemma {:induction false} PutPayloadStays(c: Config, q: Queue, run: seq<Step>, i: nat)
    requires IsRun(c, q, run) && i < |run| && run[i].Put?
    ensures IsOf(Final(c, q, run), run[i].j, run[i].profile, run[i].task)
    decreases |run|
  {
    if i == 0 {
      PayloadStays(c, Next(c, q, run[0]), run[1..], run[0].j, run[0].profile, run[0].task);
    } else {
      PutPayloadStays(c, Next(c, q, run[0]), run[1..], i - 1);
    }
  }
}
