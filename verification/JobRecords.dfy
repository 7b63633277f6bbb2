/** What a job's record goes through over whole runs: the retry times in seconds, what was
    submitted staying as it was, and the completed jobs of a workspace. */
module JobRecords {
  import opened QueueState
  import opened QueueInvariant
  import opened QueueOperations
  import opened QueueBulk
  import opened Workers
  import opened Runs
  import opened RunTheorems
  import opened Backoff

  // ----- the record after a failure -----

  /** A job that fails for the a-th time, with attempts left and a at most 29, runs next
      30 * 2^(a-1) seconds later; with its attempts used up it is dead, its run time as it was.
      The error is recorded, and nothing else about the job changes. */
  lemma FailureRecord(cfg: Config, sys: System, t: JobType, id: nat, message: string)
    requires SysInv(cfg, sys) && Enabled(cfg, sys, Finish(t, id, Failed(message)))
    ensures id in sys.store.jobs && id in Next(cfg, sys, Finish(t, id, Failed(message))).store.jobs
    ensures var j, j' := sys.store.jobs[id], Next(cfg, sys, Finish(t, id, Failed(message))).store.jobs[id];
            var a := j.attempts + 1;
            && j'.attempts == a && j'.lastError == message && j'.updatedAt == sys.now
            && (j'.status == Dead <==> a == j.maxAttempts) && (j'.status == Pending <==> a < j.maxAttempts)
            && (a < j.maxAttempts ==> j'.nextRunAt == NextRun(sys.now, a))
            && (a < j.maxAttempts && a <= 29 ==> j'.nextRunAt == sys.now + 30 * Pow2(a - 1))
            && (a == j.maxAttempts ==> j'.nextRunAt == j.nextRunAt)
            && SamePayload(j, j')
  {
    hide SysInv, Next, NextRun, Inv, WorkerInv, SlotsAddUp;
    WorkerFacts(cfg, sys, t);
    RunningInSet(sys.store, W(sys, t), t, sys.now, id);
    Facts(sys.store, id);
    StepEffect(cfg, sys, Finish(t, id, Failed(message)), id);
    DelayExactIffAtMost29(sys.now, sys.store.jobs[id].attempts + 1);
  }

  /** What a job is about: none of it is the queue's to change. */
  predicate SamePayload(j: Job, j': Job) {
    && j'.id == j.id && j'.jobType == j.jobType && j'.workspace == j.workspace && j'.reference == j.reference
    && j'.metadata == j.metadata && j'.maxAttempts == j.maxAttempts && j'.createdAt == j.createdAt
  }

  // ----- until the next report -----

  /** No step of the run reports job `id` or requeues it from the dead-letter set. */
  ghost predicate LeftAlone(cfg: Config, sys: System, es: seq<Event>, id: nat) {
    es != [] ==>
      && LeftAlone(cfg, sys, es[..|es| - 1], id)
      && !Reports(es[|es| - 1], id) && !Requeues(Exec(cfg, sys, es[..|es| - 1]), es[|es| - 1], id)
  }

  lemma {:induction false} RunTimeStands(cfg: Config, sys: System, es: seq<Event>, id: nat)
    requires Sensible(cfg) && SysInv(cfg, sys) && IsRun(cfg, sys, es) && id in sys.store.jobs
    requires LeftAlone(cfg, sys, es, id)
    ensures id in Exec(cfg, sys, es).store.jobs
    ensures Exec(cfg, sys, es).store.jobs[id].nextRunAt == sys.store.jobs[id].nextRunAt
  {
    hide SysInv, Next, Enabled, Reports, Requeues, Fetches, PutsBack, Recovers;
    if es != [] {
      RunTimeStands(cfg, sys, es[..|es| - 1], id);
      RunKeeps(cfg, sys, es[..|es| - 1]);
      StepEffect(cfg, Exec(cfg, sys, es[..|es| - 1]), es[|es| - 1], id);
    }
  }

  /** The dispatcher starts the job it has fetched exactly if the job is due by now, and puts
      it back exactly if not. */
  lemma DecidedByRunTime(cfg: Config, sys: System, t: JobType, id: nat)
    requires SysInv(cfg, sys) && Enabled(cfg, sys, Decide(t)) && W(sys, t).dispatcher.job.id == id
    ensures id in sys.store.jobs
    ensures id in W(Next(cfg, sys, Decide(t)), t).running <==> sys.store.jobs[id].nextRunAt <= sys.now
    ensures id in P(Next(cfg, sys, Decide(t)).store, t) <==> sys.store.jobs[id].nextRunAt > sys.now
  {
    hide Inv, SlotsAddUp;
    WorkerFacts(cfg, sys, t);
    assert Held(sys.store, W(sys, t).dispatcher.job);
    EachHeldApart(R(sys.store, t).Keys, W(sys, t), id);
    hide WorkerInv, Held;
    NotPendingYet(sys.store, t, id);
    hide SysInv;
    assert W(sys, t).dispatcher.job.nextRunAt <= sys.now ==> Next(cfg, sys, Decide(t)).store == sys.store;
  }

  /** A retry starts exactly when it is due: a dispatcher that has fetched a job after its a-th
      failure starts it once the delay has passed since, 30 * 2^(a-1) seconds for every a up to
      29, and until then puts it back, through any steps that neither report nor requeue the job. */
  lemma RetryStartsExactlyWhenDue(cfg: Config, sys: System, t: JobType, id: nat, message: string, after: seq<Event>)
    requires Sensible(cfg) && SysInv(cfg, sys) && Enabled(cfg, sys, Finish(t, id, Failed(message)))
    requires id in sys.store.jobs && sys.store.jobs[id].attempts + 1 < sys.store.jobs[id].maxAttempts
    requires var failed := Next(cfg, sys, Finish(t, id, Failed(message)));
             && IsRun(cfg, failed, after) && LeftAlone(cfg, failed, after, id)
             && Enabled(cfg, Exec(cfg, failed, after), Decide(t))
             && W(Exec(cfg, failed, after), t).dispatcher.job.id == id
    ensures var end := Exec(cfg, Next(cfg, sys, Finish(t, id, Failed(message))), after);
            var a := sys.store.jobs[id].attempts + 1;
            var due := NextRun(sys.now, a);
            && (a <= 29 ==> due == sys.now + 30 * Pow2(a - 1))
            && (id in W(Next(cfg, end, Decide(t)), t).running <==> end.now >= due)
            && (id in P(Next(cfg, end, Decide(t)).store, t) <==> end.now < due)
  {
    hide SysInv, Next, Enabled;
    var failed := Next(cfg, sys, Finish(t, id, Failed(message)));
    StepKeeps(cfg, sys, Finish(t, id, Failed(message)));
    FailureRecord(cfg, sys, t, id, message);
    RunTimeStands(cfg, failed, after, id);
    RunKeeps(cfg, failed, after);
    DecidedByRunTime(cfg, Exec(cfg, failed, after), t, id);
  }

  // ----- what was submitted -----

  /** The record of a new job. */
  lemma SubmittedRecord(cfg: Config, sys: System, t: JobType, workspace: string, reference: string,
                        metadata: map<string, string>)
    ensures Next(cfg, sys, Submit(t, workspace, reference, metadata)).now == sys.now
    ensures var s' := Next(cfg, sys, Submit(t, workspace, reference, metadata)).store;
            var id := sys.store.idCounter + 1;
            id in s'.jobs && s'.idCounter == id
            && s'.jobs[id] == Job(id, t, workspace, reference, Pending, 0, cfg.maxAttempts, "", metadata,
                                  sys.now, sys.now, sys.now)
  {
  }

  lemma {:induction false} PayloadStands(cfg: Config, sys: System, es: seq<Event>, id: nat)
    requires Sensible(cfg) && SysInv(cfg, sys) && IsRun(cfg, sys, es) && id in sys.store.jobs
    ensures id in Exec(cfg, sys, es).store.jobs && SamePayload(sys.store.jobs[id], Exec(cfg, sys, es).store.jobs[id])
  {
    hide SysInv, Next, Enabled, Reports, Requeues, Fetches, PutsBack, Recovers;
    if es != [] {
      PayloadStands(cfg, sys, es[..|es| - 1], id);
      RunKeeps(cfg, sys, es[..|es| - 1]);
      StepEffect(cfg, Exec(cfg, sys, es[..|es| - 1]), es[|es| - 1], id);
    }
  }

  /** Whatever happens after a job was submitted, a worker that runs it has the workspace,
      reference and metadata it was submitted with, on the worker of its own type. */
  lemma RunsWhatWasSubmitted(cfg: Config, sys: System, t: JobType, workspace: string, reference: string,
                             metadata: map<string, string>, after: seq<Event>, u: JobType)
    requires Sensible(cfg) && SysInv(cfg, sys)
    requires IsRun(cfg, Next(cfg, sys, Submit(t, workspace, reference, metadata)), after)
    ensures var end := Exec(cfg, Next(cfg, sys, Submit(t, workspace, reference, metadata)), after);
            var id := sys.store.idCounter + 1;
            id in W(end, u).running ==>
              var job := W(end, u).running[id];
              && u == t && job.jobType == t && job.workspace == workspace && job.reference == reference
              && job.metadata == metadata && job.createdAt == sys.now && job.maxAttempts == cfg.maxAttempts
  {
    hide SysInv, Next, Enabled, Inv, SlotsAddUp;
    var id, sys1 := sys.store.idCounter + 1, Next(cfg, sys, Submit(t, workspace, reference, metadata));
    SubmittedRecord(cfg, sys, t, workspace, reference, metadata);
    AlwaysOpen(cfg, sys, t, workspace, reference, metadata);
    StepKeeps(cfg, sys, Submit(t, workspace, reference, metadata));
    PayloadStands(cfg, sys1, after, id);
    RunKeeps(cfg, sys1, after);
    var end := Exec(cfg, sys1, after);
    WorkerFacts(cfg, end, u);
    if id in W(end, u).running {
      RunningInSet(end.store, W(end, u), u, end.now, id);
    }
  }

  lemma AlwaysOpen(cfg: Config, sys: System, t: JobType, workspace: string, reference: string,
                   metadata: map<string, string>)
    ensures Enabled(cfg, sys, Submit(t, workspace, reference, metadata))
  {
  }

  /** A new job is due at once: the first dispatcher that fetches it starts it. */
  lemma FirstStartIsImmediate(cfg: Config, sys: System, t: JobType, workspace: string, reference: string,
                              metadata: map<string, string>, after: seq<Event>)
    requires Sensible(cfg) && SysInv(cfg, sys)
    requires var sys1 := Next(cfg, sys, Submit(t, workspace, reference, metadata));
             && IsRun(cfg, sys1, after) && LeftAlone(cfg, sys1, after, sys.store.idCounter + 1)
             && Enabled(cfg, Exec(cfg, sys1, after), Decide(t))
             && W(Exec(cfg, sys1, after), t).dispatcher.job.id == sys.store.idCounter + 1
    ensures var end := Exec(cfg, Next(cfg, sys, Submit(t, workspace, reference, metadata)), after);
            sys.store.idCounter + 1 in W(Next(cfg, end, Decide(t)), t).running
  {
    hide SysInv, Next, Enabled;
    var sys1 := Next(cfg, sys, Submit(t, workspace, reference, metadata));
    SubmittedRecord(cfg, sys, t, workspace, reference, metadata);
    AlwaysOpen(cfg, sys, t, workspace, reference, metadata);
    StepKeeps(cfg, sys, Submit(t, workspace, reference, metadata));
    RunTimeStands(cfg, sys1, after, sys.store.idCounter + 1);
    RunKeeps(cfg, sys1, after);
    ClockRuns(cfg, sys1, after);
    DecidedByRunTime(cfg, Exec(cfg, sys1, after), t, sys.store.idCounter + 1);
  }

  lemma {:induction false} ClockRuns(cfg: Config, sys: System, es: seq<Event>)
    ensures Exec(cfg, sys, es).now >= sys.now
  {
    hide Next;
    if es != [] {
      ClockRuns(cfg, sys, es[..|es| - 1]);
      TimeAdvances(cfg, Exec(cfg, sys, es[..|es| - 1]), es[|es| - 1]);
    }
  }

  // ----- completed jobs of a workspace -----

  ghost function CompletedJobs(s: Store, workspace: string): set<nat> {
    set id | id in s.jobs && s.jobs[id].status == Completed && s.jobs[id].workspace == workspace
  }

  ghost predicate CompletedTallied(s: Store) {
    forall workspace :: CompletedBy(s, workspace) == |CompletedJobs(s, workspace)|
  }

  /** The jobs and the completed counters after a step other than a submission: it loses and
      makes up no job, and counts the job it reports as successful under that job's workspace. */
  ghost predicate Counted(s: Store, s': Store, done: bool, workspace: string) {
    && s'.jobs.Keys == s.jobs.Keys
    && s'.completedBy == if done then s.completedBy[workspace := CompletedBy(s, workspace) + 1] else s.completedBy
  }

  lemma MovedCounted(s: Store, s': Store, j': Job, from: Status, to: Status, score: int)
    requires Moved(s, s', j', from, to, score)
    ensures Counted(s, s', to == Completed, j'.workspace)
  {
    hide LaneMoved, AttemptsInBounds;
  }

  lemma StepCounted(cfg: Config, sys: System, e: Event)
    requires SysInv(cfg, sys) && Enabled(cfg, sys, e) && !e.Submit?
    requires e.Finish? ==> e.id in sys.store.jobs
    ensures Counted(sys.store, Next(cfg, sys, e).store, e.Finish? && e.outcome.Succeeded?,
              if e.Finish? then sys.store.jobs[e.id].workspace else "")
  {
    hide SysInv, Inv, Next, Enabled, Counted;
    WorkerFacts(cfg, sys, Diff);
    match e
    case RequeueMany(t, ids, scope) => ManyCounted(cfg, sys, t, ids, scope);
    case RecoverStuck(t, ids) => RecoveryCounted(cfg, sys, t, ids);
    case Finish(t, id, outcome) => FinishCounted(cfg, sys, t, id, outcome);
    case Decide(t) => DecideCounted(cfg, sys, t);
    case Fetch(t) => FetchCounted(cfg, sys, t);
    case Requeue(t, id) => RequeueCounted(cfg, sys, t, id);
    case _ => SlotsOnly(cfg, sys, e);
  }

  lemma SlotsOnly(cfg: Config, sys: System, e: Event)
    requires e.Pass? || e.Acquire? || e.Release? || e.Crash? || e.Serve?
    ensures Counted(sys.store, Next(cfg, sys, e).store, false, "")
  {
  }

  lemma ManyCounted(cfg: Config, sys: System, t: JobType, ids: seq<nat>, scope: Scope)
    requires Inv(sys.store) && Enabled(cfg, sys, RequeueMany(t, ids, scope))
    ensures Counted(sys.store, Next(cfg, sys, RequeueMany(t, ids, scope)).store, false, "")
  {
    hide Inv, RequeueAll;
    RequeueAllDrains(sys.store, sys.now, t, ids, scope);
  }

  lemma RecoveryCounted(cfg: Config, sys: System, t: JobType, ids: seq<nat>)
    requires Inv(sys.store) && Enabled(cfg, sys, RecoverStuck(t, ids))
    ensures Counted(sys.store, Next(cfg, sys, RecoverStuck(t, ids)).store, false, "")
  {
    hide Inv, Recover;
    RecoverDrains(sys.store, sys.now, t, ids);
  }

  lemma FinishCounted(cfg: Config, sys: System, t: JobType, id: nat, outcome: Outcome)
    requires SysInv(cfg, sys) && Enabled(cfg, sys, Finish(t, id, outcome)) && id in sys.store.jobs
    ensures Counted(sys.store, Next(cfg, sys, Finish(t, id, outcome)).store, outcome.Succeeded?,
              sys.store.jobs[id].workspace)
  {
    hide SysInv, Inv, WorkerInv, SlotsAddUp, Complete, Fail, Moved, FailedJob, Counted;
    WorkerFacts(cfg, sys, t);
    var s, job := sys.store, W(sys, t).running[id];
    RunningJob(s, W(sys, t), t, sys.now, id);
    HeldIsKept(s, W(sys, t), t, sys.now, job);
    match outcome {
      case Succeeded =>
        CompleteMoves(s, sys.now, job);
        MovedCounted(s, Complete(s, sys.now, job), job.(status := Completed, updatedAt := sys.now),
            Processing, Completed, 0);
      case Failed(message) =>
        FailMoves(s, sys.now, job, message);
        var j := FailedJob(job, sys.now, message);
        MovedCounted(s, Fail(s, sys.now, job, message), j, Processing, j.status, sys.now);
        NotCounted(s, Fail(s, sys.now, job, message), j.workspace, job.workspace);
    }
  }

  lemma NotCounted(s: Store, s': Store, a: string, b: string)
    requires Counted(s, s', false, a)
    ensures Counted(s, s', false, b)
  {
  }

  lemma DecideCounted(cfg: Config, sys: System, t: JobType)
    requires SysInv(cfg, sys) && Enabled(cfg, sys, Decide(t))
    ensures Counted(sys.store, Next(cfg, sys, Decide(t)).store, false, "")
  {
    hide SysInv, Inv, WorkerInv, SlotsAddUp, PutBack, Moved, Counted;
    WorkerFacts(cfg, sys, t);
    var s, job := sys.store, W(sys, t).dispatcher.job;
    HeldIsKept(s, W(sys, t), t, sys.now, job);
    PutBackMoves(s, t, job);
    MovedCounted(s, PutBack(s, t, job), job.(status := Pending), Processing, Pending, 0);
    NotCounted(s, PutBack(s, t, job), job.workspace, "");
    NothingChanged(s);
  }

  lemma NothingChanged(s: Store)
    ensures Counted(s, s, false, "")
  {
  }

  lemma FetchCounted(cfg: Config, sys: System, t: JobType)
    requires Inv(sys.store) && Enabled(cfg, sys, Fetch(t))
    ensures Counted(sys.store, Next(cfg, sys, Fetch(t)).store, false, "")
  {
    hide Inv, Dequeue;
    if P(sys.store, t) == [] {
      NothingFetched(sys.store, sys.now, t);
    } else {
      DequeueMoves(sys.store, sys.now, t);
    }
  }

  lemma RequeueCounted(cfg: Config, sys: System, t: JobType, id: nat)
    requires Inv(sys.store) && Enabled(cfg, sys, Requeue(t, id))
    ensures Counted(sys.store, Next(cfg, sys, Requeue(t, id)).store, false, "")
  {
    hide Inv;
    if CanRequeue(sys.store, id) {
      Facts(sys.store, id);
    }
  }

  /** A submission adds its own job and completes nothing. */
  lemma NewJobOnly(cfg: Config, sys: System, e: Event)
    requires e.Submit?
    ensures Next(cfg, sys, e).store.jobs.Keys == sys.store.jobs.Keys + {sys.store.idCounter + 1}
    ensures Next(cfg, sys, e).store.completedBy == sys.store.completedBy
    ensures e == Submit(e.t, e.workspace, e.reference, e.metadata)
  {
  }

  lemma TallyStep(cfg: Config, sys: System, e: Event)
    requires SysInv(cfg, sys) && Enabled(cfg, sys, e) && CompletedTallied(sys.store)
    ensures CompletedTallied(Next(cfg, sys, e).store)
  {
    hide SysInv, Next, Enabled;
    var (s, s') := (sys.store, Next(cfg, sys, e).store);
    forall workspace
      ensures CompletedBy(s', workspace) == |CompletedJobs(s', workspace)|
    {
      TallyOne(cfg, sys, e, workspace);
    }
  }

  lemma TallyOne(cfg: Config, sys: System, e: Event, workspace: string)
    requires SysInv(cfg, sys) && Enabled(cfg, sys, e)
    requires CompletedBy(sys.store, workspace) == |CompletedJobs(sys.store, workspace)|
    ensures CompletedBy(Next(cfg, sys, e).store, workspace) == |CompletedJobs(Next(cfg, sys, e).store, workspace)|
  {
    hide SysInv, Next, Enabled;
    CompletedAfter(cfg, sys, e, workspace);
    if e.Submit? {
      NewJobOnly(cfg, sys, e);
    } else {
      StepCounted(cfg, sys, e);
    }
  }

  lemma FinishedRecord(cfg: Config, sys: System, e: Event)
    requires SysInv(cfg, sys) && Enabled(cfg, sys, e) && e.Finish?
    ensures e.id in sys.store.jobs && sys.store.jobs[e.id].status == Processing
    ensures e == Finish(e.t, e.id, e.outcome)
  {
    hide Inv, SlotsAddUp;
    WorkerFacts(cfg, sys, e.t);
    RunningInSet(sys.store, W(sys, e.t), e.t, sys.now, e.id);
    PlaceFacts(sys.store, e.t, e.id, Processing);
  }

  /** A step completes at most the job it reports as successful, and completed jobs stay so. */
  lemma CompletedAfter(cfg: Config, sys: System, e: Event, workspace: string)
    requires SysInv(cfg, sys) && Enabled(cfg, sys, e)
    ensures e.Finish? ==> e.id in sys.store.jobs && sys.store.jobs[e.id].status == Processing
    ensures CompletedJobs(Next(cfg, sys, e).store, workspace)
            == CompletedJobs(sys.store, workspace)
               + if e.Finish? && e.outcome.Succeeded? && sys.store.jobs[e.id].workspace == workspace then {e.id} else {}
  {
    hide SysInv, Next, Enabled, Fetches, PutsBack, Requeues, Recovers;
    if e.Finish? {
      FinishedRecord(cfg, sys, e);
    }
    forall x | x in sys.store.jobs
      ensures x in Next(cfg, sys, e).store.jobs
      ensures Effect(sys, e, x, sys.store.jobs[x], Next(cfg, sys, e).store.jobs[x])
    {
      StepEffect(cfg, sys, e, x);
    }
    if e.Submit? {
      SubmittedRecord(cfg, sys, e.t, e.workspace, e.reference, e.metadata);
      NewJobOnly(cfg, sys, e);
    } else {
      StepCounted(cfg, sys, e);
    }
  }

  /** In every reachable state the completed counter of each workspace is the number of its
      completed jobs. */
  lemma CompletedPerWorkspace(cfg: Config, now: int, es: seq<Event>, workspace: string)
    requires Sensible(cfg) && IsRun(cfg, Initial(now), es)
    ensures CompletedBy(Exec(cfg, Initial(now), es).store, workspace)
            == |CompletedJobs(Exec(cfg, Initial(now), es).store, workspace)|
  {
    hide SysInv, Next, Enabled;
    InitialInv(cfg, now);
    NoneCompleted();
    TallyRun(cfg, Initial(now), es);
  }

  lemma NoneCompleted()
    ensures CompletedTallied(EMPTY)
  {
    assert forall workspace :: CompletedJobs(EMPTY, workspace) == {};
  }

  lemma {:induction false} TallyRun(cfg: Config, sys: System, es: seq<Event>)
    requires Sensible(cfg) && SysInv(cfg, sys) && IsRun(cfg, sys, es) && CompletedTallied(sys.store)
    ensures CompletedTallied(Exec(cfg, sys, es).store)
  {
    hide SysInv, Next, Enabled, CompletedTallied;
    if es != [] {
      TallyRun(cfg, sys, es[..|es| - 1]);
      RunKeeps(cfg, sys, es[..|es| - 1]);
      TallyStep(cfg, Exec(cfg, sys, es[..|es| - 1]), es[|es| - 1]);
    }
  }
}
