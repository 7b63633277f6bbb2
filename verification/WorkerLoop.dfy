/** The worker loop of backend/pkg/queue/worker.go. One ticker firing goes through the
    Acquire, Fetch and Decide steps of the state machine in Workers.dfy; a goroutine
    ends with Finish and then Release. */
module WorkerLoop {
  import opened QueueState
  import opened Queue
  import M = Workers
  import opened Runs

  /** One ticker firing, as steps of the state machine: `now` is the time of the fetch,
      `later` the time at which the fetched job is looked at. */
  function Tick(s: Store, w: M.Worker, concurrency: nat, t: JobType, now: int, later: int): (Store, M.Worker) {
    if w.tokens >= concurrency then (s, w)
    else
      var (s1, w1) := M.FetchJob(s, M.AcquireSlot(w), now, t);
      if w1.dispatcher.Holding? then M.DecideJob(s1, w1, later, t) else (s1, w1)
  }

  class Worker {
    const queue: Queue
    const jobType: JobType
    const concurrency: nat
    /** Slots of the semaphore in use. */
    var tokens: nat
    /** Jobs inside `process`, and goroutines done with theirs but not yet gone. */
    var running: map<nat, Job>
    var finishing: nat

    constructor (q: Queue, t: JobType, configured: int)
      ensures queue == q && jobType == t
      ensures concurrency == (if configured <= 0 then 1 else configured) && concurrency > 0
      ensures State({}) == M.RESTED
    {
      queue, jobType := q, t;
      concurrency := if configured <= 0 then 1 else configured;
      tokens, running, finishing := 0, map[], 0;
    }

    /** The worker between two ticker firings, as a value; the loop holds no job then. */
    function State(orphans: set<nat>): M.Worker
      reads this
    {
      M.Worker(tokens, M.Idle, running, finishing, orphans)
    }

    method OnTick(now: int, later: int)
      modifies this, queue
      ensures forall orphans :: (queue.store, State(orphans))
                == Tick(old(queue.store), old(State(orphans)), concurrency, jobType, now, later)
      ensures old(tokens) >= concurrency ==>
                queue.store == old(queue.store) && forall orphans :: State(orphans) == old(State(orphans))
      ensures old(tokens) <= concurrency ==> tokens <= concurrency
      ensures running != old(running) ==> old(tokens) < concurrency && tokens == old(tokens) + 1
    {
      if tokens >= concurrency {
        return;
      }
      tokens := tokens + 1;
      var fetched := queue.DequeueJob(now, jobType);
      match fetched
      case Lost(_) =>
        tokens := tokens - 1;
      case Nothing =>
        tokens := tokens - 1;
      case Got(job) =>
        if job.nextRunAt > later {
          queue.PutBackJob(jobType, job);
          tokens := tokens - 1;
          return;
        }
        running := running[job.id := job];
    }

    /** The end of processJob: the job fails or completes. */
    method OnProcessed(now: int, id: nat, outcome: M.Outcome)
      requires id in running
      modifies this`running, this`finishing, queue`store
      ensures forall orphans :: (queue.store, State(orphans))
                == M.FinishJob(old(queue.store), old(State(orphans)), now, id, outcome)
    {
      var job := running[id];
      match outcome {
        case Failed(message) => queue.FailJob(now, job, message);
        case Succeeded => queue.CompleteJob(now, job);
      }
      running := running - {id};
      finishing := finishing + 1;
    }

    /** The goroutine's deferred release of its slot. */
    method OnGoroutineExit()
      requires finishing > 0 && tokens > 0
      modifies this`finishing, this`tokens
      ensures forall orphans :: State(orphans) == M.ReleaseSlot(old(State(orphans)))
    {
      finishing := finishing - 1;
      tokens := tokens - 1;
    }
  }

  /** A ticker firing is a run of the state machine: with all slots taken the empty one,
      otherwise taking a slot, fetching, and looking at what was fetched. */
  lemma TickIsARun(cfg: M.Config, sys: M.System, t: JobType, wait: nat) returns (es: seq<M.Event>)
    requires sys.phase == M.Serving && M.W(sys, t).dispatcher == M.Idle
    ensures IsRun(cfg, sys, es) && (es == [] <==> M.W(sys, t).tokens >= cfg.concurrency)
    ensures var (s, w) := Tick(sys.store, M.W(sys, t), cfg.concurrency, t, sys.now, sys.now + wait);
            Exec(cfg, sys, es)
            == M.SetWorker(sys.(now := if es == [] then sys.now else sys.now + wait, store := s), t, w)
  {
    hide Dequeue, PutBack, IsRun, Exec;
    es := [];
    EmptyRun(cfg, sys);
    if M.W(sys, t).tokens < cfg.concurrency {
      var sys1 := M.Next(cfg, sys, M.Acquire(t));
      var sys2 := M.Next(cfg, sys1, M.Fetch(t));
      var sys3 := M.Next(cfg, sys2, M.Pass(wait));
      OneMore(cfg, sys, es, M.Acquire(t), sys);
      OneMore(cfg, sys, es + [M.Acquire(t)], M.Fetch(t), sys1);
      OneMore(cfg, sys, es + [M.Acquire(t)] + [M.Fetch(t)], M.Pass(wait), sys2);
      es := es + [M.Acquire(t)] + [M.Fetch(t)] + [M.Pass(wait)];
      if M.W(sys3, t).dispatcher.Holding? {
        OneMore(cfg, sys, es, M.Decide(t), sys3);
        es := es + [M.Decide(t)];
      }
    }
  }

  lemma EmptyRun(cfg: M.Config, sys: M.System)
    ensures IsRun(cfg, sys, []) && Exec(cfg, sys, []) == sys
  {
  }

  lemma OneMore(cfg: M.Config, sys: M.System, es: seq<M.Event>, e: M.Event, mid: M.System)
    requires IsRun(cfg, sys, es) && Exec(cfg, sys, es) == mid && M.Enabled(cfg, mid, e)
    ensures IsRun(cfg, sys, es + [e]) && Exec(cfg, sys, es + [e]) == M.Next(cfg, mid, e)
  {
    assert (es + [e])[..|es + [e]| - 1] == es;
  }

  /** So the loop as it is written keeps the system invariant, and with it the bound on the
      slots and the account of the processing set. */
  lemma TickKeeps(cfg: M.Config, sys: M.System, t: JobType, wait: nat) returns (sys': M.System)
    requires M.Sensible(cfg) && M.SysInv(cfg, sys) && sys.phase == M.Serving && M.W(sys, t).dispatcher == M.Idle
    ensures var (s, w) := Tick(sys.store, M.W(sys, t), cfg.concurrency, t, sys.now, sys.now + wait);
            && sys' == M.SetWorker(sys.(now := sys'.now, store := s), t, w)
            && M.SysInv(cfg, sys') && w.tokens <= cfg.concurrency
  {
    hide M.SysInv, Tick, IsRun;
    var es := TickIsARun(cfg, sys, t, wait);
    RunKeeps(cfg, sys, es);
    sys' := Exec(cfg, sys, es);
    M.WorkerFacts(cfg, sys', t);
  }
}
