/** Runs of the system: any sequence of enabled steps, from any state that satisfies the
    invariant (in particular from the initial one). */
module Runs {
  import opened QueueState
  import opened QueueInvariant
  import opened QueueOperations
  import opened QueueBulk
  import opened Workers
  import Queue

  function Exec(cfg: Config, sys: System, es: seq<Event>): System {
    if es == [] then sys else Next(cfg, Exec(cfg, sys, es[..|es| - 1]), es[|es| - 1])
  }

  ghost predicate IsRun(cfg: Config, sys: System, es: seq<Event>) {
    es != [] ==>
      && IsRun(cfg, sys, es[..|es| - 1])
      && Enabled(cfg, Exec(cfg, sys, es[..|es| - 1]), es[|es| - 1])
  }

  lemma {:induction false} RunKeeps(cfg: Config, sys: System, es: seq<Event>)
    requires Sensible(cfg) && SysInv(cfg, sys) && IsRun(cfg, sys, es)
    ensures SysInv(cfg, Exec(cfg, sys, es))
  {
    hide SysInv, Enabled, Next;
    if es != [] {
      RunKeeps(cfg, sys, es[..|es| - 1]);
      StepKeeps(cfg, Exec(cfg, sys, es[..|es| - 1]), es[|es| - 1]);
    }
  }

  ghost predicate Reachable(cfg: Config, sys: System) {
    exists now, es :: IsRun(cfg, Initial(now), es) && sys == Exec(cfg, Initial(now), es)
  }

  lemma ReachableInv(cfg: Config, sys: System)
    requires Sensible(cfg) && Reachable(cfg, sys)
    ensures SysInv(cfg, sys)
  {
    hide SysInv;
    var now, es :| IsRun(cfg, Initial(now), es) && sys == Exec(cfg, Initial(now), es);
    InitialInv(cfg, now);
    RunKeeps(cfg, Initial(now), es);
  }

  // ----- one place, bounded attempts, counters -----

  /** How often `id` occurs in the keys of one job type. */
  function Occurrences(l: Lane, id: nat): nat {
    multiset(l.pending)[id] + (if id in l.processing then 1 else 0) + (if id in l.dead then 1 else 0)
  }

  lemma {:induction false} CountInList(l: seq<nat>, id: nat)
    requires NoDuplicates(l)
    ensures multiset(l)[id] == if id in l then 1 else 0
  {
    if l != [] {
      CountInList(l[1..], id);
      assert l == [l[0]] + l[1..];
      assert l[0] !in l[1..];
    }
  }

  /** In every reachable state each issued job occurs exactly once, in the place of its
      own type that its status names; a completed job occurs nowhere. */
  lemma OnePlace(cfg: Config, sys: System, id: nat, t: JobType)
    requires Sensible(cfg) && Reachable(cfg, sys) && 1 <= id <= sys.store.idCounter
    ensures id in sys.store.jobs
    ensures var j := sys.store.jobs[id];
            && Occurrences(L(sys.store, t), id) == (if t == j.jobType && j.status != Completed then 1 else 0)
            && (id in P(sys.store, t) <==> t == j.jobType && j.status == Pending)
            && (id in R(sys.store, t) <==> t == j.jobType && j.status == Processing)
            && (id in D(sys.store, t) <==> t == j.jobType && j.status == Dead)
  {
    ReachableInv(cfg, sys);
    assert id in sys.store.jobs;
    Facts(sys.store, id);
    assert InLane(L(sys.store, t), id, StatusIn(sys.store.jobs[id], t));
    assert LaneClosed(L(sys.store, t), sys.store.jobs.Keys);
    CountInList(P(sys.store, t), id);
  }

  /** Waiting and running jobs have attempts left; dead ones have used exactly all. */
  lemma AttemptsBounded(cfg: Config, sys: System, id: nat)
    requires Sensible(cfg) && Reachable(cfg, sys) && id in sys.store.jobs
    ensures var j := sys.store.jobs[id];
            if j.status == Dead then j.attempts == j.maxAttempts else j.attempts < j.maxAttempts
  {
    ReachableInv(cfg, sys);
    Facts(sys.store, id);
  }

  /** Every job enqueued is waiting, running, dead or completed; the per-workspace
      counters sum to the total. */
  lemma CountersConserved(cfg: Config, sys: System)
    requires Sensible(cfg) && Reachable(cfg, sys)
    ensures sys.store.enqueued == |P(sys.store, Diff)| + |P(sys.store, Analyze)|
                                  + |R(sys.store, Diff)| + |R(sys.store, Analyze)|
                                  + |D(sys.store, Diff)| + |D(sys.store, Analyze)| + sys.store.completed
    ensures Sum(sys.store.completedBy) == sys.store.completed
  {
    hide WellKept, Closed;
    ReachableInv(cfg, sys);
  }

  /** Whatever two requests for the statistics of the two types show, in the same state, adds up:
      every job ever enqueued is counted once, and both show the same number completed. */
  lemma StatsAccountForAll(cfg: Config, sys: System)
    requires Sensible(cfg) && Reachable(cfg, sys)
    ensures var d, a := Queue.StatsOf(sys.store, Diff), Queue.StatsOf(sys.store, Analyze);
            && d.completed == a.completed
            && sys.store.enqueued == d.pending + d.processing + d.dead + a.pending + a.processing + a.dead + d.completed
  {
    CountersConserved(cfg, sys);
  }

  /** Semaphore slots are one per goroutine plus one while the dispatcher has taken one
      and not handed it on, never more than the configured number; and the processing set
      is what the goroutines run, what the dispatcher holds, and leftovers of crashes. */
  lemma SlotsAndProcessing(cfg: Config, sys: System, t: JobType)
    requires Sensible(cfg) && Reachable(cfg, sys)
    ensures var w := W(sys, t);
            && w.tokens == |w.running| + w.finishing + (if w.dispatcher == Idle then 0 else 1) <= cfg.concurrency
            && R(sys.store, t).Keys == w.running.Keys + HeldByDispatcher(w) + w.orphans
            && w.running.Keys !! HeldByDispatcher(w) !! w.orphans
  {
    ReachableInv(cfg, sys);
    hide Inv, HeldAsStored;
    WorkerFacts(cfg, sys, t);
  }

  // ----- what one step does to one job -----

  /** The jobs a step fetches, starts, requeues. */
  ghost predicate Fetches(sys: System, e: Event, id: nat) {
    e.Fetch? && P(sys.store, e.t) != [] && P(sys.store, e.t)[|P(sys.store, e.t)| - 1] == id
  }

  ghost predicate Starts(sys: System, e: Event, id: nat) {
    && e.Decide? && W(sys, e.t).dispatcher.Holding?
    && W(sys, e.t).dispatcher.job.id == id && W(sys, e.t).dispatcher.job.nextRunAt <= sys.now
  }

  ghost predicate PutsBack(sys: System, e: Event, id: nat) {
    && e.Decide? && W(sys, e.t).dispatcher.Holding?
    && W(sys, e.t).dispatcher.job.id == id && W(sys, e.t).dispatcher.job.nextRunAt > sys.now
  }

  ghost predicate Requeues(sys: System, e: Event, id: nat) {
    && CanRequeue(sys.store, id)
    && ((e.Requeue? && e.id == id) || (e.RequeueMany? && id in e.ids && InScope(sys.store, id, e.scope)))
  }

  ghost predicate Recovers(e: Event, id: nat) {
    e.RecoverStuck? && id in e.ids
  }

  ghost predicate Reports(e: Event, id: nat) {
    e.Finish? && e.id == id
  }

  ghost predicate Involves(sys: System, e: Event, id: nat) {
    Fetches(sys, e, id) || PutsBack(sys, e, id) || Requeues(sys, e, id) || Recovers(e, id) || Reports(e, id)
  }

  /** The stored record of job `id` after a step that involves it. */
  ghost predicate Effect(sys: System, e: Event, id: nat, j: Job, j': Job) {
    && (Fetches(sys, e, id) ==> j.status == Pending && j' == j.(status := Processing, updatedAt := sys.now))
    && (PutsBack(sys, e, id) ==> j.status == Processing && j' == j.(status := Pending))
    && (Recovers(e, id) ==> j.status == Processing && j' == j.(status := Pending, updatedAt := sys.now))
    && (Reports(e, id) ==> j.status == Processing
                           && match e.outcome
                              case Succeeded => j' == j.(status := Completed, updatedAt := sys.now)
                              case Failed(message) => j' == AfterFailure(j, sys.now, message))
    && (Requeues(sys, e, id) ==>
          j.status == Dead
          && j' == Job(j.id, j.jobType, j.workspace, j.reference, Pending, 0, j.maxAttempts, "", j.metadata,
                       j.createdAt, sys.now, sys.now))
    && (!Involves(sys, e, id) ==> j' == j)
  }

  /** The record of a job that failed: dead with its attempts used up, otherwise waiting. */
  function AfterFailure(j: Job, now: int, message: string): Job {
    if j.attempts + 1 >= j.maxAttempts then
      Job(j.id, j.jobType, j.workspace, j.reference, Dead, j.attempts + 1, j.maxAttempts, message, j.metadata,
          j.createdAt, now, j.nextRunAt)
    else
      Job(j.id, j.jobType, j.workspace, j.reference, Pending, j.attempts + 1, j.maxAttempts, message, j.metadata,
          j.createdAt, now, NextRun(now, j.attempts + 1))
  }

  lemma FailedIsAfterFailure(j: Job, now: int, message: string)
    ensures FailedJob(j, now, message) == AfterFailure(j, now, message)
  {
    hide NextRun;
  }

  lemma RevivedIsFresh(j: Job, now: int)
    ensures Revived(j, now) == Job(j.id, j.jobType, j.workspace, j.reference, Pending, 0, j.maxAttempts, "", j.metadata,
                                   j.createdAt, now, now)
  {
  }

  lemma FetchEffect(cfg: Config, sys: System, t: JobType, id: nat)
    requires SysInv(cfg, sys) && Enabled(cfg, sys, Fetch(t)) && id in sys.store.jobs
    ensures var s' := Next(cfg, sys, Fetch(t)).store;
            id in s'.jobs && Effect(sys, Fetch(t), id, sys.store.jobs[id], s'.jobs[id])
  {
    hide Inv, WorkerInv, SlotsAddUp, Moved, Dequeue;
    WorkerFacts(cfg, sys, t);
    if P(sys.store, t) != [] {
      DequeueMoves(sys.store, sys.now, t);
      PlaceOfLast(sys.store, t);
      var last := P(sys.store, t)[|P(sys.store, t)| - 1];
      MoveSetsJob(sys.store, Dequeue(sys.store, sys.now, t).0,
          sys.store.jobs[last].(status := Processing, updatedAt := sys.now),
                  Pending, Processing, sys.now);
    } else {
      NothingFetched(sys.store, sys.now, t);
    }
  }

  lemma NothingFetched(s: Store, now: int, t: JobType)
    requires P(s, t) == []
    ensures Dequeue(s, now, t) == (s, Nothing)
  {
  }

  lemma PlaceOfLast(s: Store, t: JobType)
    requires Inv(s) && P(s, t) != []
    ensures s.jobs.Keys >= {P(s, t)[|P(s, t)| - 1]} && s.jobs[P(s, t)[|P(s, t)| - 1]].status == Pending
  {
    PlaceFacts(s, t, P(s, t)[|P(s, t)| - 1], Pending);
  }

  lemma DecideEffect(cfg: Config, sys: System, t: JobType, id: nat)
    requires SysInv(cfg, sys) && Enabled(cfg, sys, Decide(t)) && id in sys.store.jobs
    ensures var s' := Next(cfg, sys, Decide(t)).store;
            id in s'.jobs && Effect(sys, Decide(t), id, sys.store.jobs[id], s'.jobs[id])
  {
    hide Inv, SlotsAddUp, MadeUpOf, SysInv;
    WorkerFacts(cfg, sys, t);
    assert Held(sys.store, W(sys, t).dispatcher.job);
    hide WorkerInv, HeldAsStored;
  }

  lemma FinishEffect(cfg: Config, sys: System, t: JobType, fin: nat, outcome: Outcome, id: nat)
    requires SysInv(cfg, sys) && Enabled(cfg, sys, Finish(t, fin, outcome)) && id in sys.store.jobs
    ensures var s' := Next(cfg, sys, Finish(t, fin, outcome)).store;
            id in s'.jobs && Effect(sys, Finish(t, fin, outcome), id, sys.store.jobs[id], s'.jobs[id])
  {
    hide SysInv, Inv, WorkerInv, SlotsAddUp, Moved, FailedJob, AfterFailure, Complete, Fail;
    WorkerFacts(cfg, sys, t);
    var s, job := sys.store, W(sys, t).running[fin];
    RunningJob(s, W(sys, t), t, sys.now, fin);
    HeldIsKept(s, W(sys, t), t, sys.now, job);
    match outcome {
      case Succeeded =>
        CompleteMoves(s, sys.now, job);
        MoveSetsJob(s, Complete(s, sys.now, job), job.(status := Completed, updatedAt := sys.now),
            Processing, Completed, 0);
      case Failed(message) =>
        FailMoves(s, sys.now, job, message);
        var j := FailedJob(job, sys.now, message);
        FailedIsAfterFailure(job, sys.now, message);
        MoveSetsJob(s, Fail(s, sys.now, job, message), j, Processing, j.status, sys.now);
    }
  }

  lemma RequeueOneEffect(cfg: Config, sys: System, t: JobType, one: nat, id: nat)
    requires SysInv(cfg, sys) && Enabled(cfg, sys, Requeue(t, one)) && id in sys.store.jobs
    ensures var s' := Next(cfg, sys, Requeue(t, one)).store;
            id in s'.jobs && Effect(sys, Requeue(t, one), id, sys.store.jobs[id], s'.jobs[id])
  {
    hide Inv;
    if CanRequeue(sys.store, one) {
      Facts(sys.store, one);
      RevivedIsFresh(sys.store.jobs[one], sys.now);
    }
  }

  lemma RequeueEffect(cfg: Config, sys: System, t: JobType, ids: seq<nat>, scope: Scope, id: nat)
    requires SysInv(cfg, sys) && Enabled(cfg, sys, RequeueMany(t, ids, scope)) && id in sys.store.jobs
    ensures var s' := Next(cfg, sys, RequeueMany(t, ids, scope)).store;
            id in s'.jobs && Effect(sys, RequeueMany(t, ids, scope), id, sys.store.jobs[id], s'.jobs[id])
  {
    hide SysInv, RequeueAll, FailedJob, Inv, WorkerInv, SlotsAddUp, InScope, Revived;
    WorkerFacts(cfg, sys, t);
    OnlySelectedRequeued(sys.store, sys.now, t, ids, scope, id);
    RevivedIsFresh(sys.store.jobs[id], sys.now);
  }

  lemma OnlySelectedRequeued(s: Store, now: int, t: JobType, ids: seq<nat>, scope: Scope, id: nat)
    requires Inv(s) && FullSnapshot(D(s, t), ids) && id in s.jobs
    ensures id in RequeueAll(s, now, t, ids, scope).jobs
    ensures RequeueAll(s, now, t, ids, scope).jobs[id] ==
            if id in ids && CanRequeue(s, id) && InScope(s, id, scope) then Revived(s.jobs[id], now) else s.jobs[id]
  {
    hide Inv, RequeueAll;
    RequeueAllDrains(s, now, t, ids, scope);
    SelectedAre(s, ids, scope);
    if id in ids {
      PlaceFacts(s, t, id, Dead);
    }
  }

  lemma RecoverEffect(cfg: Config, sys: System, t: JobType, ids: seq<nat>, id: nat)
    requires SysInv(cfg, sys) && Enabled(cfg, sys, RecoverStuck(t, ids)) && id in sys.store.jobs
    ensures var s' := Next(cfg, sys, RecoverStuck(t, ids)).store;
            id in s'.jobs && Effect(sys, RecoverStuck(t, ids), id, sys.store.jobs[id], s'.jobs[id])
  {
    hide SysInv, Recover, FailedJob, Inv, WorkerInv, SlotsAddUp;
    WorkerFacts(cfg, sys, t);
    OnlyStuckRecovered(sys.store, sys.now, t, ids, id);
  }

  lemma OnlyStuckRecovered(s: Store, now: int, t: JobType, ids: seq<nat>, id: nat)
    requires Inv(s) && NoDuplicates(ids) && (forall x :: x in ids ==> x in R(s, t)) && id in s.jobs
    ensures id in Recover(s, now, t, ids).jobs
    ensures id !in ids ==> Recover(s, now, t, ids).jobs[id] == s.jobs[id]
    ensures id in ids ==> s.jobs[id].status == Processing
    ensures id in ids ==> Recover(s, now, t, ids).jobs[id] == s.jobs[id].(status := Pending, updatedAt := now)
  {
    hide Inv, Recover;
    RecoverDrains(s, now, t, ids);
    if id in ids {
      PlaceFacts(s, t, id, Processing);
    }
  }

  lemma SubmitEffect(cfg: Config, sys: System, e: Event, id: nat)
    requires Inv(sys.store) && e.Submit? && id in sys.store.jobs
    ensures var s' := Next(cfg, sys, e).store;
            id in s'.jobs && Effect(sys, e, id, sys.store.jobs[id], s'.jobs[id])
  {
    assert sys.store.idCounter + 1 !in sys.store.jobs;
  }

  lemma NoEffect(cfg: Config, sys: System, e: Event, id: nat)
    requires id in sys.store.jobs && (e.Pass? || e.Acquire? || e.Release? || e.Crash? || e.Serve?)
    ensures Next(cfg, sys, e).store == sys.store && Effect(sys, e, id, sys.store.jobs[id], sys.store.jobs[id])
  {
  }

  /** What any step does to the record of any job. */
  lemma StepEffect(cfg: Config, sys: System, e: Event, id: nat)
    requires SysInv(cfg, sys) && Enabled(cfg, sys, e) && id in sys.store.jobs
    ensures id in Next(cfg, sys, e).store.jobs
    ensures Effect(sys, e, id, sys.store.jobs[id], Next(cfg, sys, e).store.jobs[id])
  {
    hide SysInv, Effect;
    match e
    case Fetch(t) => FetchEffect(cfg, sys, t, id);
    case Decide(t) => DecideEffect(cfg, sys, t, id);
    case Finish(t, fin, outcome) => FinishEffect(cfg, sys, t, fin, outcome, id);
    case RequeueMany(t, ids, scope) => RequeueEffect(cfg, sys, t, ids, scope, id);
    case RecoverStuck(t, ids) => RecoverEffect(cfg, sys, t, ids, id);
    case Requeue(t, one) => RequeueOneEffect(cfg, sys, t, one, id);
    case Submit(_, _, _, _) =>
      WorkerFacts(cfg, sys, Diff);
      SubmitEffect(cfg, sys, e, id);
    case Pass(_) => NoEffect(cfg, sys, e, id);
    case Acquire(_) => NoEffect(cfg, sys, e, id);
    case Release(_) => NoEffect(cfg, sys, e, id);
    case Crash => NoEffect(cfg, sys, e, id);
    case Serve => NoEffect(cfg, sys, e, id);
  }
}
