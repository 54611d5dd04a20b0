/** api/task_queue.py with the inline backend: a worker that turns payloads into handler
    coroutines, and two nested semaphores around each handler.

    A handler coroutine is cut at its suspension points: each step below runs from one to
    the next, so every interleaving of steps is one of coroutines. Which of several waiting
    coroutines gets a free permit is left open. */
module TaskQueue {

  /** `Handling` is the body of the two semaphores; `Completed` is after both are released. */
  datatype Stage = Queued | Scheduled | WantsGlobal | WantsProfile | Handling | Completed

  datatype Job = Job(profile: string, task: string, stage: Stage)

  datatype Config = Config(maxConcurrency: nat, profileLimits: map<string, nat>)

  /** Both kinds of limit are read as `max(1, ...)`. */
  predicate ValidConfig(c: Config) {
    c.maxConcurrency >= 1 && forall p :: p in c.profileLimits ==> c.profileLimits[p] >= 1
  }

  /** A profile without a limit of its own gets a semaphore of one. */
  function Limit(c: Config, profile: string): nat {
    if profile in c.profileLimits then c.profileLimits[profile] else 1
  }

  datatype Queue = Queue(waiting: seq<nat>, jobs: map<nat, Job>, free: nat, profileFree: map<string, nat>)

  function Started(c: Config): Queue {
    Queue([], map[], c.maxConcurrency, c.profileLimits)
  }

  datatype Step =
    | Put(j: nat, profile: string, task: string)
    | Take
    | Begin(j: nat)
    | TakeGlobal(j: nat)
    | TakeProfile(j: nat)
    | Return(j: nat)

  predicate At(q: Queue, j: nat, s: Stage) {
    j in q.jobs && q.jobs[j].stage == s
  }

  predicate Enabled(q: Queue, s: Step) {
    match s
    case Put(j, _, _) => j !in q.jobs
    case Take => q.waiting != [] && At(q, q.waiting[0], Queued)
    case Begin(j) => At(q, j, Scheduled)
    case TakeGlobal(j) => At(q, j, WantsGlobal) && q.free > 0
    case TakeProfile(j) => At(q, j, WantsProfile) && q.jobs[j].profile in q.profileFree
      && q.profileFree[q.jobs[j].profile] > 0
    case Return(j) => At(q, j, Handling) && q.jobs[j].profile in q.profileFree
  }

  function Move(q: Queue, j: nat, s: Stage): map<nat, Job>
    requires j in q.jobs
  {
    q.jobs[j := q.jobs[j].(stage := s)]
  }

  function Next(c: Config, q: Queue, s: Step): Queue
    requires Enabled(q, s)
  {
    match s
    case Put(j, profile, task) => q.(waiting := q.waiting + [j], jobs := q.jobs[j := Job(profile, task, Queued)])
    case Take => q.(waiting := q.waiting[1..], jobs := Move(q, q.waiting[0], Scheduled))
    case Begin(j) =>
      var p := q.jobs[j].profile;
      q.(jobs := Move(q, j, WantsGlobal),
         profileFree := if p in q.profileFree then q.profileFree else q.profileFree[p := Limit(c, p)])
    case TakeGlobal(j) => q.(jobs := Move(q, j, WantsProfile), free := q.free - 1)
    case TakeProfile(j) =>
      var p := q.jobs[j].profile;
      q.(jobs := Move(q, j, Handling), profileFree := q.profileFree[p := q.profileFree[p] - 1])
    case Return(j) =>
      var p := q.jobs[j].profile;
      q.(jobs := Move(q, j, Completed), free := q.free + 1, profileFree := q.profileFree[p := q.profileFree[p] + 1])
  }

  /** The queue object. `jobs` holds each handler coroutine's program point. */
  class Dispatcher {
    const config: Config
    var inlineQueue: seq<nat>
    var jobs: map<nat, Job>
    var semaphore: nat
    var profileSemaphores: map<string, nat>

    function View(): Queue
      reads this
    {
      Queue(inlineQueue, jobs, semaphore, profileSemaphores)
    }

    constructor (config: Config)
      ensures this.config == config && View() == Started(config)
    {
      this.config := config;
      inlineQueue, jobs, semaphore, profileSemaphores := [], map[], config.maxConcurrency, config.profileLimits;
    }

    method Enqueue(j: nat, profile: string, task: string)
      requires Enabled(View(), Put(j, profile, task))
      modifies this
      ensures View() == Next(config, old(View()), Put(j, profile, task))
      ensures inlineQueue == old(inlineQueue) + [j]
    {
      jobs := jobs[j := Job(profile, task, Queued)];
      inlineQueue := inlineQueue + [j];
    }

    method WorkerStep()
      requires Enabled(View(), Take)
      modifies this
      ensures View() == Next(config, old(View()), Take)
      ensures old(inlineQueue) == [old(inlineQueue)[0]] + inlineQueue
    {
      var j := inlineQueue[0];
      inlineQueue := inlineQueue[1..];
      jobs := jobs[j := jobs[j].(stage := Scheduled)];
    }

    method BeginHandler(j: nat)
      requires Enabled(View(), Begin(j))
      modifies this
      ensures View() == Next(config, old(View()), Begin(j))
    {
      var p := jobs[j].profile;
      if p !in profileSemaphores {
        profileSemaphores := profileSemaphores[p := if p in config.profileLimits then config.profileLimits[p] else 1];
      }
      jobs := jobs[j := jobs[j].(stage := WantsGlobal)];
    }

    /** The two acquires of `async with semaphore, profile_semaphore`, in that order. */
    method Acquire(j: nat) returns (got: bool)
      requires At(View(), j, WantsGlobal) || (At(View(), j, WantsProfile) && jobs[j].profile in profileSemaphores)
      modifies this
      ensures var q := old(View()); var s := if At(q, j, WantsGlobal) then TakeGlobal(j) else TakeProfile(j);
        got == Enabled(q, s) && View() == if got then Next(config, q, s) else q
    {
      if jobs[j].stage == WantsGlobal {
        if semaphore == 0 { return false; }
        semaphore := semaphore - 1;
        jobs := jobs[j := jobs[j].(stage := WantsProfile)];
      } else {
        var p := jobs[j].profile;
        if profileSemaphores[p] == 0 { return false; }
        profileSemaphores := profileSemaphores[p := profileSemaphores[p] - 1];
        jobs := jobs[j := jobs[j].(stage := Handling)];
      }
      got := true;
    }

    /** The handler has returned or raised; leaving both semaphores does not suspend. */
    method LeaveHandler(j: nat)
      requires Enabled(View(), Return(j))
      modifies this
      ensures View() == Next(config, old(View()), Return(j))
    {
      var p := jobs[j].profile;
      profileSemaphores := profileSemaphores[p := profileSemaphores[p] + 1];
      semaphore := semaphore + 1;
      jobs := jobs[j := jobs[j].(stage := Completed)];
    }
  }
}
