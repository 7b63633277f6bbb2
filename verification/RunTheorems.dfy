/** Properties of single jobs over whole runs: retry delays, how often a job is
    executed, and what becomes of jobs that a crash left behind. */
module RunTheorems {
  import Slices
  import opened QueueState
  import opened QueueInvariant
  import opened QueueOperations
  import opened QueueBulk
  import opened Workers
  import opened Runs
  import opened Backoff

  // ----- what one step does to the goroutines and the orphans -----

  lemma WorkerEffect(cfg: Config, sys: System, e: Event, t: JobType, id: nat)
    requires Enabled(cfg, sys, e)
    ensures id in W(Next(cfg, sys, e), t).running <==>
            !e.Crash? && ((Starts(sys, e, id) && e.t == t)
                || (id in W(sys, t).running && !(Reports(e, id) && e.t == t)))
    ensures id in W(Next(cfg, sys, e), t).orphans <==>
            if e.Crash? then id in R(sys.store, t) else id in W(sys, t).orphans && !(Recovers(e, id) && e.t == t)
  {
    hide Dequeue, PutBack, Complete, Fail, Enqueue, RequeueDead, RequeueAll, Recover;
  }

  lemma TimeAdvances(cfg: Config, sys: System, e: Event)
    ensures Next(cfg, sys, e).now >= sys.now
  {
    hide Dequeue, PutBack, Complete, Fail, Enqueue, RequeueDead, RequeueAll, Recover;
  }

  // ----- retry delays -----

  /** Job `id` cannot be started before time `due`: it waits, not running, with a later next run time. */
  ghost predicate Waits(sys: System, id: nat, due: int) {
    && id in sys.store.jobs && sys.store.jobs[id].status in {Pending, Processing}
    && sys.store.jobs[id].nextRunAt >= due
    && forall t :: id !in W(sys, t).running
  }

  ghost predicate NotBefore(sys: System, id: nat, due: int) {
    sys.now >= due || Waits(sys, id, due)
  }

  /** A started job is the stored one, and it is due. */
  lemma StartedIsDue(cfg: Config, sys: System, e: Event, id: nat)
    requires SysInv(cfg, sys) && Enabled(cfg, sys, e) && Starts(sys, e, id)
    ensures id in sys.store.jobs && sys.store.jobs[id].nextRunAt <= sys.now && sys.store.jobs[id].status == Processing
    ensures sys.store.jobs[id].jobType == e.t && id in R(sys.store, e.t)
    ensures id !in W(sys, e.t).running && id !in W(sys, e.t).orphans
  {
    hide Inv, SlotsAddUp;
    WorkerFacts(cfg, sys, e.t);
    assert Held(sys.store, W(sys, e.t).dispatcher.job);
    PlaceFacts(sys.store, e.t, id, Processing);
  }

  lemma WaitStep(cfg: Config, sys: System, e: Event, id: nat, due: int)
    requires SysInv(cfg, sys) && Enabled(cfg, sys, e) && Waits(sys, id, due) && sys.now < due
    ensures !Starts(sys, e, id) && Waits(Next(cfg, sys, e), id, due)
  {
    hide SysInv, Next, Enabled;
    if Starts(sys, e, id) {
      StartedIsDue(cfg, sys, e, id);
    }
    StepEffect(cfg, sys, e, id);
    forall t
      ensures id !in W(Next(cfg, sys, e), t).running
    {
      WorkerEffect(cfg, sys, e, t, id);
    }
    NotReported(cfg, sys, e, id);
  }

  lemma NotReported(cfg: Config, sys: System, e: Event, id: nat)
    requires Enabled(cfg, sys, e) && forall t :: id !in W(sys, t).running
    ensures !Reports(e, id)
  {
  }

  lemma NotBeforeStep(cfg: Config, sys: System, e: Event, id: nat, due: int)
    requires SysInv(cfg, sys) && Enabled(cfg, sys, e) && NotBefore(sys, id, due)
    ensures NotBefore(Next(cfg, sys, e), id, due)
    ensures Starts(sys, e, id) ==> sys.now >= due
  {
    hide SysInv, Next, Enabled, Waits, Starts;
    TimeAdvances(cfg, sys, e);
    if sys.now < due {
      WaitStep(cfg, sys, e, id, due);
    }
  }

  lemma {:induction false} NotBeforeRun(cfg: Config, sys: System, es: seq<Event>, id: nat, due: int)
    requires Sensible(cfg) && SysInv(cfg, sys) && IsRun(cfg, sys, es) && NotBefore(sys, id, due)
    ensures NotBefore(Exec(cfg, sys, es), id, due)
  {
    hide SysInv, Next, Enabled, NotBefore;
    if es != [] {
      NotBeforeRun(cfg, sys, es[..|es| - 1], id, due);
      RunKeeps(cfg, sys, es[..|es| - 1]);
      NotBeforeStep(cfg, Exec(cfg, sys, es[..|es| - 1]), es[|es| - 1], id, due);
    }
  }

  /** After a failure that leaves attempts, the job waits for the time FailedJob gives it. */
  lemma WaitsAfterFailure(cfg: Config, sys: System, t: JobType, id: nat, message: string)
    requires SysInv(cfg, sys) && Enabled(cfg, sys, Finish(t, id, Failed(message)))
    requires id in sys.store.jobs && sys.store.jobs[id].attempts + 1 < sys.store.jobs[id].maxAttempts
    ensures Waits(Next(cfg, sys, Finish(t, id, Failed(message))), id, NextRun(sys.now, sys.store.jobs[id].attempts + 1))
  {
    hide SysInv, Next, NextRun, Inv, WorkerInv, SlotsAddUp;
    var e := Finish(t, id, Failed(message));
    StepEffect(cfg, sys, e, id);
    WorkerFacts(cfg, sys, t);
    RunningInSet(sys.store, W(sys, t), t, sys.now, id);
    NotElsewhere(sys.store, t, id);
    WorkerFacts(cfg, sys, Other(t));
    forall u: JobType
      ensures id !in W(Next(cfg, sys, e), u).running
    {
      assert u == t || u == Other(t);
      WorkerEffect(cfg, sys, e, u, id);
      if id in W(sys, Other(t)).running {
        RunningInSet(sys.store, W(sys, Other(t)), Other(t), sys.now, id);
      }
    }
  }

  lemma RunningInSet(s: Store, w: Worker, t: JobType, now: int, id: nat)
    requires Inv(s) && WorkerInv(s, w, t, now) && id in w.running
    ensures id in R(s, t) && id in s.jobs && s.jobs[id].jobType == t
  {
    hide Inv;
    PlaceFacts(s, t, id, Processing);
  }

  /** After its a-th failure at some time, with attempts left, a job is not executed again
      before 30 * 2^(a-1) seconds have passed, whatever put-backs, crashes, recoveries and
      other jobs come in between; for every a up to 29, so for every limit up to 30. */
  lemma BackoffRespected(cfg: Config, sys: System, t: JobType, id: nat, message: string, after: seq<Event>, e: Event)
    requires Sensible(cfg) && SysInv(cfg, sys) && Enabled(cfg, sys, Finish(t, id, Failed(message)))
    requires id in sys.store.jobs && sys.store.jobs[id].attempts + 1 < sys.store.jobs[id].maxAttempts
    requires sys.store.jobs[id].attempts + 1 <= 29
    requires var failed := Next(cfg, sys, Finish(t, id, Failed(message)));
             IsRun(cfg, failed, after) && Enabled(cfg, Exec(cfg, failed, after), e)
                 && Starts(Exec(cfg, failed, after), e, id)
    ensures Exec(cfg, Next(cfg, sys, Finish(t, id, Failed(message))), after).now
              >= sys.now + Delay(sys.store.jobs[id].attempts + 1)
  {
    hide SysInv, Next, Enabled, Waits, Starts, NextRun, Delay;
    var failed := Next(cfg, sys, Finish(t, id, Failed(message)));
    var a := sys.store.jobs[id].attempts + 1;
    StepKeeps(cfg, sys, Finish(t, id, Failed(message)));
    WaitsAfterFailure(cfg, sys, t, id, message);
    DelayExactIffAtMost29(sys.now, a);
    NotBeforeRun(cfg, failed, after, id, NextRun(sys.now, a));
    RunKeeps(cfg, failed, after);
    NotBeforeStep(cfg, Exec(cfg, failed, after), e, id, NextRun(sys.now, a));
  }

  // ----- how often a job is executed -----

  ghost function Executions(cfg: Config, sys: System, es: seq<Event>, id: nat): nat {
    if es == [] then 0
    else
      var before := Exec(cfg, sys, es[..|es| - 1]);
      Executions(cfg, sys, es[..|es| - 1], id) + if Starts(before, es[|es| - 1], id) then 1 else 0
  }

  ghost function Recoveries(es: seq<Event>, id: nat): nat {
    if es == [] then 0 else Recoveries(es[..|es| - 1], id) + if Recovers(es[|es| - 1], id) then 1 else 0
  }

  /** No dead-letter requeue of job `id` happens in the run. */
  ghost predicate NeverRequeued(cfg: Config, sys: System, es: seq<Event>, id: nat) {
    es != [] ==>
      NeverRequeued(cfg, sys, es[..|es| - 1], id) && !Requeues(Exec(cfg, sys, es[..|es| - 1]), es[|es| - 1], id)
  }

  /** An execution of the job is under way, or was cut off by a crash. */
  ghost predicate UnderWay(sys: System, id: nat)
    requires id in sys.store.jobs
  {
    var t := sys.store.jobs[id].jobType;
    id in W(sys, t).running || id in W(sys, t).orphans
  }

  /** Executions that the attempts counter and the current state account for. */
  ghost function Accounted(sys: System, id: nat): nat
    requires id in sys.store.jobs
  {
    var j := sys.store.jobs[id];
    j.attempts + if j.status == Completed || UnderWay(sys, id) then 1 else 0
  }

  /** A job under way is processing. */
  lemma UnderWayIsProcessing(cfg: Config, sys: System, id: nat)
    requires SysInv(cfg, sys) && id in sys.store.jobs
    ensures UnderWay(sys, id) ==> sys.store.jobs[id].status == Processing
    ensures sys.store.jobs[id].status == Processing <==> id in R(sys.store, sys.store.jobs[id].jobType)
  {
    hide Inv, SlotsAddUp, HeldAsStored;
    var t := sys.store.jobs[id].jobType;
    WorkerFacts(cfg, sys, t);
    NotElsewhere(sys.store, t, id);
  }

  lemma AccountedStep(cfg: Config, sys: System, e: Event, id: nat)
    requires SysInv(cfg, sys) && Enabled(cfg, sys, e) && id in sys.store.jobs && !Requeues(sys, e, id)
    ensures id in Next(cfg, sys, e).store.jobs
    ensures Accounted(sys, id) + (if Starts(sys, e, id) then 1 else 0)
            <= Accounted(Next(cfg, sys, e), id) + (if Recovers(e, id) then 1 else 0)
  {
    hide SysInv, Next, Enabled, NextRun;
    var sys', t := Next(cfg, sys, e), sys.store.jobs[id].jobType;
    StepEffect(cfg, sys, e, id);
    WorkerEffect(cfg, sys, e, t, id);
    UnderWayIsProcessing(cfg, sys, id);
    ReportedIsRunning(cfg, sys, e, id);
    if Starts(sys, e, id) {
      StartedIsDue(cfg, sys, e, id);
    }
  }

  lemma ReportedIsRunning(cfg: Config, sys: System, e: Event, id: nat)
    requires SysInv(cfg, sys) && Enabled(cfg, sys, e) && id in sys.store.jobs
    ensures Reports(e, id) ==> id in W(sys, sys.store.jobs[id].jobType).running && e.t == sys.store.jobs[id].jobType
    ensures Recovers(e, id) ==> e.t == sys.store.jobs[id].jobType
  {
    hide Inv, SlotsAddUp;
    if Reports(e, id) {
      WorkerFacts(cfg, sys, e.t);
      RunningInSet(sys.store, W(sys, e.t), e.t, sys.now, id);
    }
    if Recovers(e, id) {
      PlaceFacts(sys.store, e.t, id, Processing);
    }
  }

  lemma {:induction false} AccountedRun(cfg: Config, sys: System, es: seq<Event>, id: nat)
    requires Sensible(cfg) && SysInv(cfg, sys) && IsRun(cfg, sys, es) && id in sys.store.jobs
               && NeverRequeued(cfg, sys, es, id)
    ensures id in Exec(cfg, sys, es).store.jobs
    ensures Accounted(sys, id) + Executions(cfg, sys, es, id) <= Accounted(Exec(cfg, sys, es), id) + Recoveries(es, id)
  {
    hide SysInv, Next, Enabled, Accounted, Starts, Recovers, Requeues;
    if es != [] {
      AccountedRun(cfg, sys, es[..|es| - 1], id);
      RunKeeps(cfg, sys, es[..|es| - 1]);
      AccountedStep(cfg, Exec(cfg, sys, es[..|es| - 1]), es[|es| - 1], id);
    }
  }

  /** Between two dead-letter requeues a job is executed at most as often as it has attempts,
      plus once for every time it was recovered after a crash. */
  lemma ExecutionsBounded(cfg: Config, sys: System, es: seq<Event>, id: nat)
    requires Sensible(cfg) && SysInv(cfg, sys) && IsRun(cfg, sys, es) && id in sys.store.jobs
               && NeverRequeued(cfg, sys, es, id)
    ensures id in Exec(cfg, sys, es).store.jobs
    ensures Executions(cfg, sys, es, id) <= Exec(cfg, sys, es).store.jobs[id].maxAttempts + Recoveries(es, id)
  {
    hide SysInv, Next, Enabled, Inv;
    AccountedRun(cfg, sys, es, id);
    RunKeeps(cfg, sys, es);
    var end := Exec(cfg, sys, es);
    UnderWayIsProcessing(cfg, end, id);
    WorkerFacts(cfg, end, Diff);
    Facts(end.store, id);
  }

  // ----- jobs left behind by a crash -----

  lemma ScoreStep(cfg: Config, sys: System, e: Event, t: JobType, id: nat)
    requires SysInv(cfg, sys) && Enabled(cfg, sys, e) && id in W(sys, t).orphans && !Recovers(e, id)
    ensures id in R(sys.store, t) && id in R(Next(cfg, sys, e).store, t)
    ensures R(Next(cfg, sys, e).store, t)[id] == R(sys.store, t)[id]
    ensures id in W(Next(cfg, sys, e), t).orphans && !Starts(sys, e, id)
  {
    hide Inv, SlotsAddUp, Next, Enabled, HeldAsStored;
    WorkerFacts(cfg, sys, t);
    WorkerEffect(cfg, sys, e, t, id);
    OrphanNotStarted(cfg, sys, e, t, id);
    ScoreUntouched(cfg, sys, e, t, id);
  }

  /** An orphan is held by no worker, of its own type or the other. */
  lemma OrphanNotHeld(cfg: Config, sys: System, t: JobType, id: nat, u: JobType)
    requires SysInv(cfg, sys) && id in W(sys, t).orphans
    ensures id in sys.store.jobs && sys.store.jobs[id].jobType == t && sys.store.jobs[id].status == Processing
    ensures id !in W(sys, u).running && id !in HeldByDispatcher(W(sys, u))
  {
    hide Inv, SlotsAddUp, HeldAsStored;
    WorkerFacts(cfg, sys, t);
    PlaceFacts(sys.store, t, id, Processing);
    NotElsewhere(sys.store, t, id);
    WorkerFacts(cfg, sys, u);
    assert u == t || u == Other(t);
  }

  lemma OrphanNotStarted(cfg: Config, sys: System, e: Event, t: JobType, id: nat)
    requires SysInv(cfg, sys) && Enabled(cfg, sys, e) && id in W(sys, t).orphans
    ensures !Starts(sys, e, id) && !Reports(e, id) && !PutsBack(sys, e, id) && !Fetches(sys, e, id)
    ensures id in sys.store.jobs && sys.store.jobs[id].jobType == t && sys.store.jobs[id].status == Processing
  {
    hide SysInv, Inv;
    OrphanNotHeld(cfg, sys, t, id, t);
    if e.Decide? || e.Finish? {
      OrphanNotHeld(cfg, sys, t, id, e.t);
    }
    WorkerFacts(cfg, sys, t);
    if e.Fetch? && P(sys.store, e.t) != [] {
      PlaceOfLast(sys.store, e.t);
    }
  }

  /** A step that does not involve a processed job keeps its score. */
  lemma ScoreUntouched(cfg: Config, sys: System, e: Event, t: JobType, id: nat)
    requires SysInv(cfg, sys) && Enabled(cfg, sys, e) && id in R(sys.store, t)
    requires !Fetches(sys, e, id) && !PutsBack(sys, e, id) && !Reports(e, id) && !Recovers(e, id)
    ensures id in R(Next(cfg, sys, e).store, t) && R(Next(cfg, sys, e).store, t)[id] == R(sys.store, t)[id]
  {
    hide SysInv, Inv, RequeueDead, Recover, RequeueAll, Enqueue, WorkerInv, SlotsAddUp;
    WorkerFacts(cfg, sys, t);
    match e
    case RecoverStuck(u, ids) => RecoverScore(sys.store, sys.now, u, sys.now - cfg.lockTimeout, ids, t, id);
    case RequeueMany(u, ids, scope) => RequeueManyScore(sys.store, sys.now, u, ids, scope, t);
    case Submit(u, workspace, reference, metadata) =>
      SubmitScore(sys.store, sys.now, u, workspace, reference, metadata, cfg.maxAttempts, t);
    case Finish(u, fin, outcome) => ReportScore(cfg, sys, u, fin, outcome, t, id);
    case Fetch(u) => FetchScore(cfg, sys, u, t, id);
    case Decide(u) => DecideScore(cfg, sys, u, t, id);
    case Requeue(u, one) => RequeueScore(sys.store, sys.now, u, one, t);
    case _ =>
  }

  lemma RecoverScore(s: Store, now: int, u: JobType, cutoff: int, ids: seq<nat>, t: JobType, id: nat)
    requires Inv(s) && Snapshot(R(s, u), cutoff, ids) && id !in ids && id in R(s, t)
    ensures id in R(Recover(s, now, u, ids), t) && R(Recover(s, now, u, ids), t)[id] == R(s, t)[id]
  {
    hide Inv, Recover, Drained;
    RecoverDrains(s, now, u, ids);
    DrainedSets(s, Recover(s, now, u, ids), u, ids, Processing);
    assert t == u || t == Other(u);
  }

  lemma RequeueManyScore(s: Store, now: int, u: JobType, ids: seq<nat>, scope: Scope, t: JobType)
    requires Inv(s) && FullSnapshot(D(s, u), ids)
    ensures R(RequeueAll(s, now, u, ids, scope), t) == R(s, t)
  {
    hide Inv, RequeueAll, Drained;
    RequeueAllDrains(s, now, u, ids, scope);
    DrainedSets(s, RequeueAll(s, now, u, ids, scope), u, Selected(s, ids, scope), Dead);
    assert t == u || t == Other(u);
  }

  lemma SubmitScore(s: Store, now: int, u: JobType, workspace: string, reference: string, metadata: map<string, string>,
                    max: nat, t: JobType)
    ensures R(Enqueue(s, now, u, workspace, reference, metadata, max), t) == R(s, t)
  {
  }

  lemma RequeueScore(s: Store, now: int, u: JobType, one: nat, t: JobType)
    ensures R(RequeueDead(s, now, u, one), t) == R(s, t)
  {
  }

  lemma ReportScore(cfg: Config, sys: System, u: JobType, fin: nat, outcome: Outcome, t: JobType, id: nat)
    requires SysInv(cfg, sys) && Enabled(cfg, sys, Finish(u, fin, outcome)) && id in R(sys.store, t) && fin != id
    ensures var s' := Next(cfg, sys, Finish(u, fin, outcome)).store;
            id in R(s', t) && R(s', t)[id] == R(sys.store, t)[id]
  {
    hide SysInv, Inv, WorkerInv, SlotsAddUp, Complete, Fail;
    WorkerFacts(cfg, sys, u);
    RunningJob(sys.store, W(sys, u), u, sys.now, fin);
    HeldIsKept(sys.store, W(sys, u), u, sys.now, W(sys, u).running[fin]);
    var s' := Reported(sys.store, u, sys.now, W(sys, u).running[fin], outcome);
    assert t == u || t == Other(u);
  }

  lemma FetchScore(cfg: Config, sys: System, u: JobType, t: JobType, id: nat)
    requires SysInv(cfg, sys) && Enabled(cfg, sys, Fetch(u)) && id in R(sys.store, t) && !Fetches(sys, Fetch(u), id)
    ensures var s' := Next(cfg, sys, Fetch(u)).store; id in R(s', t) && R(s', t)[id] == R(sys.store, t)[id]
  {
    hide SysInv, Inv, Moved, Dequeue, WorkerInv, SlotsAddUp;
    WorkerFacts(cfg, sys, u);
    if P(sys.store, u) == [] {
      NothingFetched(sys.store, sys.now, u);
    } else {
      DequeueMoves(sys.store, sys.now, u);
      FetchSets(sys.store, Dequeue(sys.store, sys.now, u).0, u, sys.now, Dequeue(sys.store, sys.now, u).1.job);
      assert t == u || t == Other(u);
    }
  }

  lemma DecideScore(cfg: Config, sys: System, u: JobType, t: JobType, id: nat)
    requires SysInv(cfg, sys) && Enabled(cfg, sys, Decide(u)) && id in R(sys.store, t) && !PutsBack(sys, Decide(u), id)
    ensures var s' := Next(cfg, sys, Decide(u)).store; id in R(s', t) && R(s', t)[id] == R(sys.store, t)[id]
  {
    hide SysInv, PutBack;
    PutBackSets(sys.store, u, W(sys, u).dispatcher.job, t);
  }

  lemma PutBackSets(s: Store, u: JobType, job: Job, t: JobType)
    ensures R(PutBack(s, u, job), t) == if t == u then R(s, u) - {job.id} else R(s, t)
  {
  }

  /** A job that a crash left in the processing set stays there, and is not executed, as
      long as every recovery of its type comes before its lock times out. */
  lemma {:induction false} OrphanWaits(cfg: Config, sys: System, es: seq<Event>, t: JobType, id: nat)
    requires Sensible(cfg) && SysInv(cfg, sys) && IsRun(cfg, sys, es)
    requires id in W(sys, t).orphans && id in R(sys.store, t)
    requires forall k :: 0 <= k < |es| && es[k].RecoverStuck? && es[k].t == t ==>
               Exec(cfg, sys, es[..k]).now < R(sys.store, t)[id] + cfg.lockTimeout
    ensures var end := Exec(cfg, sys, es);
            id in W(end, t).orphans && id in R(end.store, t) && R(end.store, t)[id] == R(sys.store, t)[id]
    ensures Executions(cfg, sys, es, id) == 0
  {
    hide SysInv, Next, Starts;
    if es != [] {
      var init, e := es[..|es| - 1], es[|es| - 1];
      forall k | 0 <= k < |init| && init[k].RecoverStuck? && init[k].t == t
        ensures Exec(cfg, sys, init[..k]).now < R(sys.store, t)[id] + cfg.lockTimeout
      {
        assert init[..k] == es[..k] && init[k] == es[k];
      }
      OrphanWaits(cfg, sys, init, t, id);
      RunKeeps(cfg, sys, init);
      OrphanType(cfg, Exec(cfg, sys, init), e, t, id);
      ScoreStep(cfg, Exec(cfg, sys, init), e, t, id);
    }
  }

  lemma OrphanType(cfg: Config, sys: System, e: Event, t: JobType, id: nat)
    requires SysInv(cfg, sys) && Enabled(cfg, sys, e) && id in W(sys, t).orphans && id in R(sys.store, t)
    requires e.RecoverStuck? && e.t == t ==> sys.now < R(sys.store, t)[id] + cfg.lockTimeout
    ensures !Recovers(e, id)
  {
    hide Inv, SlotsAddUp;
    if Recovers(e, id) {
      WorkerFacts(cfg, sys, t);
      PlaceFacts(sys.store, t, id, Processing);
      PlaceFacts(sys.store, e.t, id, Processing);
    }
  }

  /** Recovery at boot takes a left-behind job back exactly when its lock has timed out. */
  lemma RecoveredIffLockTimedOut(cfg: Config, sys: System, t: JobType, ids: seq<nat>, id: nat)
    requires SysInv(cfg, sys) && Enabled(cfg, sys, RecoverStuck(t, ids)) && id in W(sys, t).orphans
    ensures id in R(sys.store, t)
    ensures id in P(Next(cfg, sys, RecoverStuck(t, ids)).store, t) <==> sys.now >= R(sys.store, t)[id] + cfg.lockTimeout
  {
    hide SysInv, Inv, SlotsAddUp, HeldAsStored, Recover;
    WorkerFacts(cfg, sys, t);
    PutBackIffListed(sys.store, sys.now, t, ids, id);
  }

  lemma PutBackIffListed(s: Store, now: int, t: JobType, ids: seq<nat>, id: nat)
    requires Inv(s) && NoDuplicates(ids) && (forall x :: x in ids ==> x in R(s, t)) && id in R(s, t)
    ensures id in P(Recover(s, now, t, ids), t) <==> id in ids
  {
    hide Inv, Recover;
    RecoverDrains(s, now, t, ids);
    ReverseMembers(ids, id);
    NotPendingYet(s, t, id);
  }

  lemma NotPendingYet(s: Store, t: JobType, id: nat)
    requires Inv(s) && id in R(s, t)
    ensures id !in P(s, t)
  {
    hide Inv;
    PlaceFacts(s, t, id, Processing);
    Facts(s, id);
    assert InLane(L(s, t), id, StatusIn(s.jobs[id], t));
  }

  lemma ReverseMembers(ids: seq<nat>, x: nat)
    ensures x in Slices.Reverse(ids) <==> x in ids
  {
    if x in ids {
      var k :| 0 <= k < |ids| && ids[k] == x;
      assert Slices.Reverse(ids)[|ids| - 1 - k] == x;
    }
  }
}
