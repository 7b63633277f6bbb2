/** The server process as a state machine: the queue, one dispatcher per job type with
    its semaphore, the job goroutines, the clock, crashes and start-up recovery. */
module Workers {
  import opened QueueState
  import opened QueueInvariant
  import opened QueueOperations
  import opened QueueBulk

  /** Where a dispatcher loop is: waiting for a tick, holding a slot but no job yet, or
      holding a job it has fetched and not yet looked at. */
  datatype Dispatcher = Idle | Acquired | Holding(job: Job)

  /** running: jobs of goroutines inside `process`. finishing: goroutines that have
      reported their job and not yet released their slot. orphans: jobs in the
      processing set that an earlier crash left behind. */
  datatype Worker = Worker(tokens: nat, dispatcher: Dispatcher, running: map<nat, Job>, finishing: nat,
      orphans: set<nat>)

  datatype Outcome = Succeeded | Failed(message: string)

  /** Booting(todo): stuck jobs of the types in `todo` are still to be recovered. */
  datatype Phase = Booting(todo: seq<JobType>) | Serving

  datatype System = System(now: int, store: Store, diffWorker: Worker, analyzeWorker: Worker, phase: Phase)

  datatype Config = Config(maxAttempts: nat, lockTimeout: int, concurrency: nat)

  ghost predicate Sensible(cfg: Config) {
    cfg.maxAttempts > 0 && cfg.lockTimeout > 0 && cfg.concurrency > 0
  }

  const RESTED := Worker(0, Idle, map[], 0, {})

  function W(sys: System, t: JobType): Worker {
    if t == Diff then sys.diffWorker else sys.analyzeWorker
  }

  function SetWorker(sys: System, t: JobType, w: Worker): System {
    if t == Diff then sys.(diffWorker := w) else sys.(analyzeWorker := w)
  }

  function Initial(now: int): System {
    System(now, EMPTY, RESTED, RESTED, Booting([Diff, Analyze]))
  }

  // ----- the steps of a worker -----

  function AcquireSlot(w: Worker): Worker {
    w.(tokens := w.tokens + 1, dispatcher := Acquired)
  }

  function DropSlot(w: Worker): Worker {
    w.(tokens := if w.tokens > 0 then w.tokens - 1 else 0)
  }

  function FetchJob(s: Store, w: Worker, now: int, t: JobType): (Store, Worker) {
    var (s', r) := Dequeue(s, now, t);
    match r
    case Got(job) => (s', w.(dispatcher := Holding(job)))
    case _ => (s', DropSlot(w).(dispatcher := Idle))
  }

  function DecideJob(s: Store, w: Worker, now: int, t: JobType): (Store, Worker)
    requires w.dispatcher.Holding?
  {
    var job := w.dispatcher.job;
    if job.nextRunAt > now then (PutBack(s, t, job), DropSlot(w).(dispatcher := Idle))
    else (s, w.(dispatcher := Idle, running := w.running[job.id := job]))
  }

  function FinishJob(s: Store, w: Worker, now: int, id: nat, outcome: Outcome): (Store, Worker)
    requires id in w.running
  {
    var job := w.running[id];
    var s' := match outcome case Succeeded => Complete(s, now, job) case Failed(message) => Fail(s, now, job, message);
    (s', w.(running := w.running - {id}, finishing := w.finishing + 1))
  }

  function ReleaseSlot(w: Worker): Worker
    requires w.finishing > 0
  {
    DropSlot(w).(finishing := w.finishing - 1)
  }

  // ----- the steps of the system -----

  datatype Event =
    | Pass(seconds: nat)
    | Submit(t: JobType, workspace: string, reference: string, metadata: map<string, string>)
    | Acquire(t: JobType)
    | Fetch(t: JobType)
    | Decide(t: JobType)
    | Finish(t: JobType, id: nat, outcome: Outcome)
    | Release(t: JobType)
    | Requeue(t: JobType, id: nat)
    | RequeueMany(t: JobType, ids: seq<nat>, scope: Scope)
    | Crash
    | RecoverStuck(t: JobType, ids: seq<nat>)
    | Serve

  /** Workers take steps only while the process serves; recovery runs only while it boots. */
  ghost predicate Enabled(cfg: Config, sys: System, e: Event) {
    match e
    case Pass(_) => true
    case Submit(_, _, _, _) => true
    case Acquire(t) => sys.phase == Serving && W(sys, t).dispatcher == Idle && W(sys, t).tokens < cfg.concurrency
    case Fetch(t) => sys.phase == Serving && W(sys, t).dispatcher == Acquired
    case Decide(t) => sys.phase == Serving && W(sys, t).dispatcher.Holding?
    case Finish(t, id, _) => sys.phase == Serving && id in W(sys, t).running
    case Release(t) => sys.phase == Serving && W(sys, t).finishing > 0
    case Requeue(t, id) => CanRequeue(sys.store, id) ==> sys.store.jobs[id].jobType == t
    case RequeueMany(t, ids, _) => FullSnapshot(D(sys.store, t), ids)
    case Crash => true
    case RecoverStuck(t, ids) =>
      && sys.phase.Booting? && sys.phase.todo != [] && sys.phase.todo[0] == t
      && Snapshot(R(sys.store, t), sys.now - cfg.lockTimeout, ids)
    case Serve => sys.phase == Booting([])
  }

  function Crashed(s: Store, t: JobType): Worker {
    RESTED.(orphans := R(s, t).Keys)
  }

  function Next(cfg: Config, sys: System, e: Event): System {
    match e
    case Pass(d) => sys.(now := sys.now + d)
    case Submit(t, workspace, reference, metadata) =>
      sys.(store := Enqueue(sys.store, sys.now, t, workspace, reference, metadata, cfg.maxAttempts))
    case Acquire(t) => SetWorker(sys, t, AcquireSlot(W(sys, t)))
    case Fetch(t) =>
      var (s, w) := FetchJob(sys.store, W(sys, t), sys.now, t);
      SetWorker(sys.(store := s), t, w)
    case Decide(t) =>
      if W(sys, t).dispatcher.Holding? then
        var (s, w) := DecideJob(sys.store, W(sys, t), sys.now, t);
        SetWorker(sys.(store := s), t, w)
      else sys
    case Finish(t, id, outcome) =>
      if id in W(sys, t).running then
        var (s, w) := FinishJob(sys.store, W(sys, t), sys.now, id, outcome);
        SetWorker(sys.(store := s), t, w)
      else sys
    case Release(t) => if W(sys, t).finishing > 0 then SetWorker(sys, t, ReleaseSlot(W(sys, t))) else sys
    case Requeue(t, id) => sys.(store := RequeueDead(sys.store, sys.now, t, id))
    case RequeueMany(t, ids, scope) => sys.(store := RequeueAll(sys.store, sys.now, t, ids, scope))
    case Crash =>
      System(sys.now, sys.store, Crashed(sys.store, Diff), Crashed(sys.store, Analyze), Booting([Diff, Analyze]))
    case RecoverStuck(t, ids) =>
      var w := W(sys, t);
      SetWorker(sys.(store := Recover(sys.store, sys.now, t, ids),
                     phase := if sys.phase.Booting? && sys.phase.todo != [] then Booting(sys.phase.todo[1..])
                              else sys.phase),
                t, w.(orphans := w.orphans - Elements(ids)))
    case Serve => sys.(phase := Serving)
  }

  // ----- what holds in every reachable state -----

  function HeldByDispatcher(w: Worker): set<nat> {
    if w.dispatcher.Holding? then {w.dispatcher.job.id} else {}
  }

  /** Slots: one per goroutine, and one while the dispatcher is between acquire and release. */
  ghost predicate SlotsAddUp(cfg: Config, w: Worker) {
    && w.tokens == |w.running| + w.finishing + (if w.dispatcher == Idle then 0 else 1)
    && w.tokens <= cfg.concurrency
  }

  /** The process holds each of its jobs exactly as stored; a running job was due when it was started. */
  ghost predicate HeldAsStored(s: Store, w: Worker, now: int) {
    && (forall id :: id in w.running ==>
          w.running[id].id == id && Held(s, w.running[id]) && w.running[id].nextRunAt <= now)
    && (w.dispatcher.Holding? ==> Held(s, w.dispatcher.job))
  }

  /** A processing set is made up of what runs, what the dispatcher holds, and orphans. */
  ghost predicate MadeUpOf(processing: set<nat>, w: Worker) {
    && processing == w.running.Keys + HeldByDispatcher(w) + w.orphans
    && w.running.Keys !! HeldByDispatcher(w) !! w.orphans
  }

  ghost predicate WorkerInv(s: Store, w: Worker, t: JobType, now: int) {
    HeldAsStored(s, w, now) && MadeUpOf(R(s, t).Keys, w)
  }

  ghost predicate Quiet(w: Worker) {
    w.tokens == 0 && w.dispatcher == Idle && w.running == map[] && w.finishing == 0
  }

  ghost predicate SysInv(cfg: Config, sys: System) {
    && Inv(sys.store)
    && (forall t :: SlotsAddUp(cfg, W(sys, t)) && WorkerInv(sys.store, W(sys, t), t, sys.now))
    && (sys.phase.Booting? ==> forall t :: Quiet(W(sys, t)))
  }

  lemma RestedInv(cfg: Config, s: Store, t: JobType, now: int)
    ensures SlotsAddUp(cfg, RESTED) && Quiet(RESTED)
    ensures R(s, t) == map[] ==> WorkerInv(s, RESTED, t, now)
  {
  }

  lemma InitialInv(cfg: Config, now: int)
    ensures SysInv(cfg, Initial(now))
  {
    hide Inv, SlotsAddUp, WorkerInv, Quiet;
    EmptyInv();
    forall t
      ensures W(Initial(now), t) == RESTED && R(EMPTY, t) == map[]
      ensures SlotsAddUp(cfg, RESTED) && WorkerInv(EMPTY, RESTED, t, now) && Quiet(RESTED)
    {
      RestedInv(cfg, EMPTY, t, now);
    }
  }

  /** A change of the store that does not touch what worker w holds leaves w alone. */
  lemma WorkerStays(s: Store, s': Store, w: Worker, t: JobType, now: int, id: nat)
    requires WorkerInv(s, w, t, now) && OthersStay(s, s', id)
    requires R(s', t) == R(s, t) && id !in R(s, t)
    ensures WorkerInv(s', w, t, now)
  {
    OthersHeld(s, s', w, now, id);
  }

  lemma OthersHeld(s: Store, s': Store, w: Worker, now: int, id: nat)
    requires HeldAsStored(s, w, now) && OthersStay(s, s', id)
    requires id !in w.running && id !in HeldByDispatcher(w)
    ensures HeldAsStored(s', w, now)
  {
    forall x | x in w.running
      ensures Held(s', w.running[x])
    {
      assert Held(s, w.running[x]);
    }
  }

  lemma LaterIsFine(s: Store, w: Worker, t: JobType, now: int, now': int)
    requires WorkerInv(s, w, t, now) && now <= now'
    ensures WorkerInv(s, w, t, now')
  {
  }

  // ----- every step keeps the invariant -----

  /** Worker u after a step of type t: the other type's worker is the one it was. */
  lemma OneWorkerChanged(cfg: Config, sys: System, sys': System, t: JobType, id: nat)
    requires SysInv(cfg, sys) && Inv(sys'.store) && sys'.now == sys.now && sys'.phase == sys.phase
    requires W(sys', Other(t)) == W(sys, Other(t)) && R(sys'.store, Other(t)) == R(sys.store, Other(t))
    requires OthersStay(sys.store, sys'.store, id) && id !in R(sys.store, Other(t))
    requires SlotsAddUp(cfg, W(sys', t)) && WorkerInv(sys'.store, W(sys', t), t, sys'.now)
    requires sys.phase.Booting? ==> Quiet(W(sys', t))
    ensures SysInv(cfg, sys')
  {
    var u := Other(t);
    assert WorkerInv(sys.store, W(sys, u), u, sys.now) && SlotsAddUp(cfg, W(sys, u));
    WorkerStays(sys.store, sys'.store, W(sys, u), u, sys.now, id);
    hide Inv, WorkerInv, SlotsAddUp, OthersStay;
    forall v: JobType
      ensures SlotsAddUp(cfg, W(sys', v)) && WorkerInv(sys'.store, W(sys', v), v, sys'.now)
      ensures sys'.phase.Booting? ==> Quiet(W(sys', v))
    {
      assert v == t || v == u;
    }
  }

  lemma WorkerFacts(cfg: Config, sys: System, t: JobType)
    requires SysInv(cfg, sys)
    ensures Inv(sys.store) && SlotsAddUp(cfg, W(sys, t)) && WorkerInv(sys.store, W(sys, t), t, sys.now)
  {
  }

  lemma SameStore(s: Store, id: nat)
    ensures OthersStay(s, s, id)
  {
  }

  /** A job of type t is in no other type's processing set. */
  lemma NotElsewhere(s: Store, t: JobType, id: nat)
    requires Inv(s) && id in s.jobs && s.jobs[id].jobType == t
    ensures id !in R(s, Other(t))
    ensures id in R(s, t) <==> s.jobs[id].status == Processing
  {
    Facts(s, id);
    assert InLane(L(s, Other(t)), id, StatusIn(s.jobs[id], Other(t)));
    assert InLane(L(s, t), id, StatusIn(s.jobs[id], t));
  }

  lemma PassKeeps(cfg: Config, sys: System, d: nat)
    requires SysInv(cfg, sys)
    ensures SysInv(cfg, Next(cfg, sys, Pass(d)))
  {
    hide Inv;
    var sys' := Next(cfg, sys, Pass(d));
    forall t
      ensures W(sys', t) == W(sys, t) && SlotsAddUp(cfg, W(sys', t)) && WorkerInv(sys'.store, W(sys', t), t, sys'.now)
    {
      LaterIsFine(sys.store, W(sys, t), t, sys.now, sys'.now);
    }
  }

  lemma SubmitKeeps(cfg: Config, sys: System, t: JobType, workspace: string, reference: string,
                    metadata: map<string, string>)
    requires Sensible(cfg) && SysInv(cfg, sys)
    ensures SysInv(cfg, Next(cfg, sys, Submit(t, workspace, reference, metadata)))
  {
    hide Inv, OthersStay, Enqueue, WorkerInv, SlotsAddUp;
    var s := sys.store;
    var s' := Enqueue(s, sys.now, t, workspace, reference, metadata, cfg.maxAttempts);
    var id := s.idCounter + 1;
    EnqueueKeeps(s, sys.now, t, workspace, reference, metadata, cfg.maxAttempts);
    SubmitTouchesNoSet(s, sys.now, t, workspace, reference, metadata, cfg.maxAttempts);
    assert SlotsAddUp(cfg, W(sys, t)) && WorkerInv(sys.store, W(sys, t), t, sys.now);
    WorkerStays(s, s', W(sys, t), t, sys.now, id);
    OneWorkerChanged(cfg, sys, Next(cfg, sys, Submit(t, workspace, reference, metadata)), t, id);
  }

  lemma SubmitTouchesNoSet(s: Store, now: int, t: JobType, workspace: string, reference: string,
                           metadata: map<string, string>, maxAttempts: nat)
    requires Inv(s)
    ensures forall u :: R(Enqueue(s, now, t, workspace, reference, metadata, maxAttempts), u) == R(s, u)
              && s.idCounter + 1 !in R(s, u)
  {
    forall u
      ensures s.idCounter + 1 !in R(s, u)
    {
      assert LaneClosed(L(s, u), s.jobs.Keys);
      assert s.idCounter + 1 !in s.jobs.Keys;
    }
  }

  lemma FreshId(s: Store)
    requires Inv(s)
    ensures forall t :: 0 !in R(s, t)
  {
    forall t
      ensures 0 !in R(s, t)
    {
      assert LaneClosed(L(s, t), s.jobs.Keys);
      assert 0 !in s.jobs.Keys;
    }
  }

  /** Steps that only move slots: acquire and release. */
  lemma SlotStep(cfg: Config, sys: System, t: JobType, w: Worker)
    requires SysInv(cfg, sys) && sys.phase == Serving
    requires SlotsAddUp(cfg, w) && WorkerInv(sys.store, w, t, sys.now)
    ensures SysInv(cfg, SetWorker(sys, t, w))
  {
    hide Inv, OthersStay, WorkerInv, SlotsAddUp;
    SameStore(sys.store, 0);
    FreshId(sys.store);
    OneWorkerChanged(cfg, sys, SetWorker(sys, t, w), t, 0);
  }

  lemma AcquiredWorker(cfg: Config, s: Store, w: Worker, t: JobType, now: int)
    requires WorkerInv(s, w, t, now) && SlotsAddUp(cfg, w) && w.dispatcher == Idle && w.tokens < cfg.concurrency
    ensures WorkerInv(s, AcquireSlot(w), t, now) && SlotsAddUp(cfg, AcquireSlot(w))
  {
    hide Held, R;
  }

  lemma ReleasedWorker(cfg: Config, s: Store, w: Worker, t: JobType, now: int)
    requires WorkerInv(s, w, t, now) && SlotsAddUp(cfg, w) && w.finishing > 0
    ensures WorkerInv(s, ReleaseSlot(w), t, now) && SlotsAddUp(cfg, ReleaseSlot(w))
  {
    hide Held, R;
  }

  lemma EmptyHandedWorker(cfg: Config, s: Store, w: Worker, t: JobType, now: int)
    requires WorkerInv(s, w, t, now) && SlotsAddUp(cfg, w) && w.dispatcher == Acquired
    ensures WorkerInv(s, DropSlot(w).(dispatcher := Idle), t, now) && SlotsAddUp(cfg, DropSlot(w).(dispatcher := Idle))
  {
    hide Held, R;
  }

  lemma AcquireKeeps(cfg: Config, sys: System, t: JobType)
    requires SysInv(cfg, sys) && Enabled(cfg, sys, Acquire(t))
    ensures SysInv(cfg, Next(cfg, sys, Acquire(t)))
  {
    hide SysInv, Inv, SlotsAddUp, WorkerInv, AcquireSlot;
    WorkerFacts(cfg, sys, t);
    AcquiredWorker(cfg, sys.store, W(sys, t), t, sys.now);
    SlotStep(cfg, sys, t, AcquireSlot(W(sys, t)));
  }

  lemma ReleaseKeeps(cfg: Config, sys: System, t: JobType)
    requires SysInv(cfg, sys) && Enabled(cfg, sys, Release(t))
    ensures SysInv(cfg, Next(cfg, sys, Release(t)))
  {
    hide SysInv, Inv, SlotsAddUp, WorkerInv, ReleaseSlot;
    WorkerFacts(cfg, sys, t);
    ReleasedWorker(cfg, sys.store, W(sys, t), t, sys.now);
    SlotStep(cfg, sys, t, ReleaseSlot(W(sys, t)));
  }

  // Worker w of type t after the store moved job j of that type.

  lemma FetchedWorker(cfg: Config, s: Store, s': Store, w: Worker, t: JobType, now: int, job: Job)
    requires WorkerInv(s, w, t, now) && SlotsAddUp(cfg, w) && w.dispatcher == Acquired
    requires OthersStay(s, s', job.id) && job.id !in R(s, t) && R(s', t) == R(s, t)[job.id := now] && Held(s', job)
    ensures WorkerInv(s', w.(dispatcher := Holding(job)), t, now) && SlotsAddUp(cfg, w.(dispatcher := Holding(job)))
  {
    hide OthersStay, Held, R;
    assert job.id !in w.running;
    OthersHeld(s, s', w, now, job.id);
    FetchedIsHeld(s', w, now, job);
    hide HeldAsStored;
    KeysAfterAdd(R(s, t), job.id, now);
    AddedToSet(R(s, t).Keys, w, job);
  }

  lemma FetchedIsHeld(s: Store, w: Worker, now: int, job: Job)
    requires HeldAsStored(s, w, now) && Held(s, job)
    ensures HeldAsStored(s, w.(dispatcher := Holding(job)), now)
  {
    hide Held;
  }

  lemma KeysAfterRemove<V>(m: map<nat, V>, id: nat)
    ensures (m - {id}).Keys == m.Keys - {id}
    ensures id in m ==> |m - {id}| == |m| - 1
  {
    assert (m - {id}).Keys == m.Keys - {id};
  }

  lemma KeysAfterAdd<V>(m: map<nat, V>, id: nat, v: V)
    ensures m[id := v].Keys == m.Keys + {id}
    ensures id !in m ==> |m[id := v]| == |m| + 1
  {
    assert m[id := v].Keys == m.Keys + {id};
    assert id !in m ==> |m[id := v].Keys| == |m.Keys| + 1;
  }

  lemma AddedToSet(keys: set<nat>, w: Worker, job: Job)
    requires MadeUpOf(keys, w) && !w.dispatcher.Holding? && job.id !in keys
    ensures MadeUpOf(keys + {job.id}, w.(dispatcher := Holding(job)))
  {
  }

  lemma EachHeldApart(keys: set<nat>, w: Worker, id: nat)
    requires MadeUpOf(keys, w)
    ensures id in w.running ==> id in keys && id !in HeldByDispatcher(w) && id !in w.orphans
    ensures id in HeldByDispatcher(w) ==> id in keys && id !in w.running && id !in w.orphans
  {
  }

  lemma RemovedFromSet(keys: set<nat>, w: Worker, w': Worker, id: nat)
    requires MadeUpOf(keys, w) && id in keys && w'.orphans == w.orphans
    requires w'.running.Keys == w.running.Keys - {id} && HeldByDispatcher(w') == HeldByDispatcher(w) - {id}
               && id !in w.orphans
    ensures MadeUpOf(keys - {id}, w')
  {
  }

  lemma FetchKeeps(cfg: Config, sys: System, t: JobType)
    requires SysInv(cfg, sys) && Enabled(cfg, sys, Fetch(t))
    ensures SysInv(cfg, Next(cfg, sys, Fetch(t)))
  {
    if P(sys.store, t) == [] {
      FetchNothing(cfg, sys, t);
    } else {
      FetchSomething(cfg, sys, t);
    }
  }

  lemma FetchNothing(cfg: Config, sys: System, t: JobType)
    requires SysInv(cfg, sys) && Enabled(cfg, sys, Fetch(t)) && P(sys.store, t) == []
    ensures SysInv(cfg, Next(cfg, sys, Fetch(t)))
  {
    hide SysInv, Inv, SlotsAddUp, WorkerInv;
    WorkerFacts(cfg, sys, t);
    EmptyHandedWorker(cfg, sys.store, W(sys, t), t, sys.now);
    SlotStep(cfg, sys, t, DropSlot(W(sys, t)).(dispatcher := Idle));
    assert sys.(store := sys.store) == sys;
  }

  lemma FetchSomething(cfg: Config, sys: System, t: JobType)
    requires SysInv(cfg, sys) && Enabled(cfg, sys, Fetch(t)) && P(sys.store, t) != []
    ensures SysInv(cfg, Next(cfg, sys, Fetch(t)))
  {
    hide Inv, WorkerInv, SlotsAddUp, OthersStay, Moved, Dequeue, P;
    var s, w := sys.store, W(sys, t);
    assert SlotsAddUp(cfg, w) && WorkerInv(s, w, t, sys.now);
    DequeueMoves(s, sys.now, t);
    var job := Dequeue(s, sys.now, t).1.job;
    FetchSets(s, Dequeue(s, sys.now, t).0, t, sys.now, job);
    MoveKeeps(s, Dequeue(s, sys.now, t).0, job, Pending, Processing, sys.now);
    NotElsewhere(s, t, job.id);
    FetchedWorker(cfg, s, Dequeue(s, sys.now, t).0, w, t, sys.now, job);
    OneWorkerChanged(cfg, sys, Next(cfg, sys, Fetch(t)), t, job.id);
  }

  lemma FetchSets(s: Store, s': Store, t: JobType, now: int, job: Job)
    requires Moved(s, s', job, Pending, Processing, now) && job.jobType == t
    ensures R(s', t) == R(s, t)[job.id := now] && R(s', Other(t)) == R(s, Other(t)) && Held(s', job)
    ensures job.id in s.jobs && s.jobs[job.id].jobType == t && s.jobs[job.id].status == Pending
  {
  }

  /** Leaving the processing set: put back, completed or failed. */
  lemma LeaveSets(s: Store, s': Store, t: JobType, to: Status, score: int, job: Job)
    requires Moved(s, s', job, Processing, to, score) && job.jobType == t
    ensures R(s', t) == R(s, t) - {job.id} && R(s', Other(t)) == R(s, Other(t))
    ensures job.id in s.jobs && s.jobs[job.id].jobType == t && s.jobs[job.id].status == Processing
  {
  }

  lemma PutBackWorker(cfg: Config, s: Store, s': Store, w: Worker, t: JobType, now: int)
    requires WorkerInv(s, w, t, now) && SlotsAddUp(cfg, w) && w.dispatcher.Holding?
    requires OthersStay(s, s', w.dispatcher.job.id) && R(s', t) == R(s, t) - {w.dispatcher.job.id}
    ensures WorkerInv(s', DropSlot(w).(dispatcher := Idle), t, now) && SlotsAddUp(cfg, DropSlot(w).(dispatcher := Idle))
  {
    hide WorkerInv, OthersStay, R, SlotsAddUp;
    var w' := DropSlot(w).(dispatcher := Idle);
    Apart(s, w, t, now, w.dispatcher.job.id);
    HeldNoMore(s, s', w, w', t, now, w.dispatcher.job.id);
    SlotGivenBack(cfg, w);
  }

  lemma SlotGivenBack(cfg: Config, w: Worker)
    requires SlotsAddUp(cfg, w) && w.dispatcher.Holding?
    ensures SlotsAddUp(cfg, DropSlot(w).(dispatcher := Idle))
  {
  }

  /** A worker that gives up one job, which leaves the processing set. */
  lemma HeldNoMore(s: Store, s': Store, w: Worker, w': Worker, t: JobType, now: int, id: nat)
    requires WorkerInv(s, w, t, now) && OthersStay(s, s', id) && R(s', t) == R(s, t) - {id}
    requires id in w.running || id in HeldByDispatcher(w)
    requires w'.orphans == w.orphans && w'.running.Keys == w.running.Keys - {id}
    requires forall x :: x in w'.running ==> w'.running[x] == w.running[x]
    requires w'.dispatcher == if id in HeldByDispatcher(w) then Idle else w.dispatcher
    ensures WorkerInv(s', w', t, now)
  {
    hide OthersStay, Held, HeldAsStored, MadeUpOf, R;
    EachHeldApart(R(s, t).Keys, w, id);
    FewerAreHeld(s, w, w', now);
    OthersHeld(s, s', w', now, id);
    KeysAfterRemove(R(s, t), id);
    RemovedFromSet(R(s, t).Keys, w, w', id);
  }

  lemma StartedWorker(cfg: Config, s: Store, w: Worker, t: JobType, now: int)
    requires WorkerInv(s, w, t, now) && SlotsAddUp(cfg, w) && w.dispatcher.Holding? && w.dispatcher.job.nextRunAt <= now
    ensures var job := w.dispatcher.job;
            var w' := w.(dispatcher := Idle, running := w.running[job.id := job]);
            WorkerInv(s, w', t, now) && SlotsAddUp(cfg, w')
  {
    hide Held, R, HeldAsStored, MadeUpOf;
    var job := w.dispatcher.job;
    var w' := w.(dispatcher := Idle, running := w.running[job.id := job]);
    EachHeldApart(R(s, t).Keys, w, job.id);
    KeysAfterAdd(w.running, job.id, job);
    StartedIsHeld(s, w, w', now);
    StartedIsCounted(R(s, t).Keys, w, w');
  }

  lemma StartedIsHeld(s: Store, w: Worker, w': Worker, now: int)
    requires HeldAsStored(s, w, now) && w.dispatcher.Holding? && w.dispatcher.job.nextRunAt <= now
    requires w' == w.(dispatcher := Idle, running := w.running[w.dispatcher.job.id := w.dispatcher.job])
    ensures HeldAsStored(s, w', now)
  {
    hide Held;
  }

  lemma StartedIsCounted(keys: set<nat>, w: Worker, w': Worker)
    requires MadeUpOf(keys, w) && w.dispatcher.Holding? && w'.dispatcher == Idle && w'.orphans == w.orphans
    requires w'.running.Keys == w.running.Keys + {w.dispatcher.job.id}
    ensures MadeUpOf(keys, w')
  {
  }

  lemma DecideKeeps(cfg: Config, sys: System, t: JobType)
    requires SysInv(cfg, sys) && Enabled(cfg, sys, Decide(t))
    ensures SysInv(cfg, Next(cfg, sys, Decide(t)))
  {
    hide SysInv;
    if W(sys, t).dispatcher.job.nextRunAt > sys.now {
      PutBackKeeps(cfg, sys, t);
    } else {
      StartKeeps(cfg, sys, t);
    }
  }

  lemma PutBackKeeps(cfg: Config, sys: System, t: JobType)
    requires SysInv(cfg, sys) && Enabled(cfg, sys, Decide(t)) && W(sys, t).dispatcher.job.nextRunAt > sys.now
    ensures SysInv(cfg, Next(cfg, sys, Decide(t)))
  {
    hide Inv, SysInv, WorkerInv, SlotsAddUp, OthersStay, Moved, PutBack;
    WorkerFacts(cfg, sys, t);
    var s, w := sys.store, W(sys, t);
    var job := w.dispatcher.job;
    HeldIsKept(s, w, t, sys.now, job);
    PutBackMoves(s, t, job);
    var s' := PutBack(s, t, job);
    MoveKeeps(s, s', job.(status := Pending), Processing, Pending, 0);
    LeaveSets(s, s', t, Pending, 0, job.(status := Pending));
    NotElsewhere(s, t, job.id);
    PutBackWorker(cfg, s, s', w, t, sys.now);
    OneWorkerChanged(cfg, sys, Next(cfg, sys, Decide(t)), t, job.id);
  }

  lemma StartKeeps(cfg: Config, sys: System, t: JobType)
    requires SysInv(cfg, sys) && Enabled(cfg, sys, Decide(t)) && W(sys, t).dispatcher.job.nextRunAt <= sys.now
    ensures SysInv(cfg, Next(cfg, sys, Decide(t)))
  {
    hide Inv, SysInv, WorkerInv, SlotsAddUp;
    WorkerFacts(cfg, sys, t);
    var s, w := sys.store, W(sys, t);
    StartedWorker(cfg, s, w, t, sys.now);
    SlotStep(cfg, sys, t, w.(dispatcher := Idle, running := w.running[w.dispatcher.job.id := w.dispatcher.job]));
  }

  /** A job that worker w holds is stored in w's type, within bounds. */
  lemma HeldIsKept(s: Store, w: Worker, t: JobType, now: int, job: Job)
    requires Inv(s) && WorkerInv(s, w, t, now)
    requires (w.dispatcher.Holding? && w.dispatcher.job == job) || (job.id in w.running && w.running[job.id] == job)
    ensures Held(s, job) && job.jobType == t && AttemptsInBounds(job)
  {
    assert job.id in R(s, t);
    PlaceFacts(s, t, job.id, Processing);
  }

  lemma FinishedWorker(cfg: Config, s: Store, s': Store, w: Worker, t: JobType, now: int, id: nat)
    requires WorkerInv(s, w, t, now) && SlotsAddUp(cfg, w) && id in w.running
    requires OthersStay(s, s', id) && R(s', t) == R(s, t) - {id}
    ensures var w' := w.(running := w.running - {id}, finishing := w.finishing + 1);
            WorkerInv(s', w', t, now) && SlotsAddUp(cfg, w')
  {
    hide WorkerInv, OthersStay, R;
    var w' := w.(running := w.running - {id}, finishing := w.finishing + 1);
    Apart(s, w, t, now, id);
    KeysAfterRemove(w.running, id);
    HeldNoMore(s, s', w, w', t, now, id);
  }

  lemma Apart(s: Store, w: Worker, t: JobType, now: int, id: nat)
    requires WorkerInv(s, w, t, now)
    ensures !(id in w.running && id in HeldByDispatcher(w))
  {
    hide R, HeldAsStored;
    EachHeldApart(R(s, t).Keys, w, id);
  }

  lemma FewerAreHeld(s: Store, w: Worker, w': Worker, now: int)
    requires HeldAsStored(s, w, now) && (w'.dispatcher == w.dispatcher || w'.dispatcher == Idle)
    requires forall id :: id in w'.running ==> id in w.running && w'.running[id] == w.running[id]
    ensures HeldAsStored(s, w', now)
  {
    hide Held;
  }

  /** What reporting a job does to the store. */
  lemma Reported(s: Store, t: JobType, now: int, job: Job, outcome: Outcome) returns (s': Store)
    requires Inv(s) && Held(s, job) && job.jobType == t && AttemptsInBounds(job)
    ensures s' == match outcome
                  case Succeeded => Complete(s, now, job)
                  case Failed(message) => Fail(s, now, job, message)
    ensures Inv(s') && OthersStay(s, s', job.id) && R(s', t) == R(s, t) - {job.id} && R(s', Other(t)) == R(s, Other(t))
  {
    hide Inv, OthersStay, Moved, Complete, Fail;
    match outcome {
      case Succeeded =>
        s' := Complete(s, now, job);
        CompleteMoves(s, now, job);
        MoveKeeps(s, s', job.(status := Completed, updatedAt := now), Processing, Completed, 0);
        LeaveSets(s, s', t, Completed, 0, job.(status := Completed, updatedAt := now));
      case Failed(message) =>
        s' := Fail(s, now, job, message);
        FailMoves(s, now, job, message);
        var j := FailedJob(job, now, message);
        MoveKeeps(s, s', j, Processing, j.status, now);
        LeaveSets(s, s', t, j.status, now, j);
    }
  }

  lemma RunningJob(s: Store, w: Worker, t: JobType, now: int, id: nat)
    requires WorkerInv(s, w, t, now) && id in w.running
    ensures w.running[id].id == id
  {
  }

  lemma FinishKeeps(cfg: Config, sys: System, t: JobType, id: nat, outcome: Outcome)
    requires SysInv(cfg, sys) && Enabled(cfg, sys, Finish(t, id, outcome))
    ensures SysInv(cfg, Next(cfg, sys, Finish(t, id, outcome)))
  {
    hide Inv, WorkerInv, SlotsAddUp, OthersStay, Complete, Fail;
    var s, w := sys.store, W(sys, t);
    WorkerFacts(cfg, sys, t);
    var job := w.running[id];
    RunningJob(s, w, t, sys.now, id);
    HeldIsKept(s, w, t, sys.now, job);
    var s' := Reported(s, t, sys.now, job, outcome);
    NotElsewhere(s, t, id);
    FinishedWorker(cfg, s, s', w, t, sys.now, id);
    OneWorkerChanged(cfg, sys, Next(cfg, sys, Finish(t, id, outcome)), t, id);
  }

  lemma CrashKeeps(cfg: Config, sys: System)
    requires SysInv(cfg, sys)
    ensures SysInv(cfg, Next(cfg, sys, Crash))
  {
    hide Inv;
    var sys' := Next(cfg, sys, Crash);
    forall t
      ensures SlotsAddUp(cfg, W(sys', t)) && WorkerInv(sys'.store, W(sys', t), t, sys'.now) && Quiet(W(sys', t))
    {
      assert W(sys', t) == Crashed(sys.store, t);
    }
  }

  lemma ServeKeeps(cfg: Config, sys: System)
    requires SysInv(cfg, sys)
    ensures SysInv(cfg, Next(cfg, sys, Serve))
  {
    hide Inv, SlotsAddUp, WorkerInv;
    var sys' := Next(cfg, sys, Serve);
    forall t
      ensures W(sys', t) == W(sys, t)
    {
    }
  }

  /** A change that touches no processed job leaves every worker alone. */
  lemma NoProcessedJobTouched(cfg: Config, sys: System, s': Store)
    requires SysInv(cfg, sys) && Inv(s')
    requires forall t :: R(s', t) == R(sys.store, t)
    requires forall t, id :: id in R(sys.store, t) && id in sys.store.jobs ==>
               id in s'.jobs && s'.jobs[id] == sys.store.jobs[id]
    ensures SysInv(cfg, sys.(store := s'))
  {
    hide Inv, R, WorkerInv, SlotsAddUp;
    var sys' := sys.(store := s');
    forall t
      ensures W(sys', t) == W(sys, t) && WorkerInv(s', W(sys, t), t, sys.now)
    {
      WorkerFacts(cfg, sys, t);
      HeldUntouched(sys.store, s', W(sys, t), t, sys.now);
    }
  }

  lemma HeldUntouched(s: Store, s': Store, w: Worker, t: JobType, now: int)
    requires WorkerInv(s, w, t, now) && R(s', t) == R(s, t)
    requires forall id :: id in R(s, t) && id in s.jobs ==> id in s'.jobs && s'.jobs[id] == s.jobs[id]
    ensures WorkerInv(s', w, t, now)
  {
    hide R;
    forall x | x in w.running || x in HeldByDispatcher(w)
      ensures x in R(s, t)
    {
    }
  }

  lemma RequeueManyKeeps(cfg: Config, sys: System, t: JobType, ids: seq<nat>, scope: Scope)
    requires SysInv(cfg, sys) && NoDuplicates(ids) && forall id :: id in ids ==> id in D(sys.store, t)
    ensures SysInv(cfg, sys.(store := RequeueAll(sys.store, sys.now, t, ids, scope)))
  {
    var s := sys.store;
    var s' := RequeueAll(s, sys.now, t, ids, scope);
    hide Inv;
    RequeueAllDrains(s, sys.now, t, ids, scope);
    SelectedAre(s, ids, scope);
    DrainedSets(s, s', t, Selected(s, ids, scope), Dead);
    forall u, id | id in R(s, u) && id in s.jobs
      ensures id in s'.jobs && s'.jobs[id] == s.jobs[id]
    {
      PlaceFacts(s, u, id, Processing);
      if id in ids {
        PlaceFacts(s, t, id, Dead);
      }
    }
    hide Drained, RequeueAll, SysInv;
    NoProcessedJobTouched(cfg, sys, s');
  }

  lemma DrainedSets(s: Store, s': Store, t: JobType, ids: seq<nat>, from: Status)
    requires Drained(s, s', t, ids, from)
    ensures from == Dead ==> forall u :: R(s', u) == R(s, u)
    ensures from == Processing ==> R(s', t) == R(s, t) - Elements(ids) && R(s', Other(t)) == R(s, Other(t))
    ensures R(s', t).Keys == if from == Processing then R(s, t).Keys - Elements(ids) else R(s, t).Keys
  {
    assert (R(s, t) - Elements(ids)).Keys == R(s, t).Keys - Elements(ids);
  }

  lemma RequeueKeeps(cfg: Config, sys: System, t: JobType, id: nat)
    requires SysInv(cfg, sys) && Enabled(cfg, sys, Requeue(t, id))
    ensures SysInv(cfg, Next(cfg, sys, Requeue(t, id)))
  {
    hide SysInv;
    if CanRequeue(sys.store, id) {
      DeadJobRequeued(cfg, sys, t, id);
    } else {
      assert Next(cfg, sys, Requeue(t, id)) == sys;
    }
  }

  lemma DeadJobRequeued(cfg: Config, sys: System, t: JobType, id: nat)
    requires SysInv(cfg, sys) && CanRequeue(sys.store, id) && sys.store.jobs[id].jobType == t
    ensures SysInv(cfg, Next(cfg, sys, Requeue(t, id)))
  {
    hide SysInv, Inv, RequeueAll, RequeueDead;
    WorkerFacts(cfg, sys, t);
    Facts(sys.store, id);
    assert InLane(L(sys.store, t), id, StatusIn(sys.store.jobs[id], t));
    hide InLane;
    DeadIsInSet(sys.store, t, id);
    RequeueManyKeeps(cfg, sys, t, [id], AllWorkspaces);
    OneRequeue(sys.store, sys.now, t, id);
  }

  lemma DeadIsInSet(s: Store, t: JobType, id: nat)
    requires id in s.jobs && s.jobs[id].status == Dead && s.jobs[id].jobType == t
    requires InLane(L(s, t), id, StatusIn(s.jobs[id], t))
    ensures id in D(s, t)
  {
  }

  lemma OneRequeue(s: Store, now: int, t: JobType, id: nat)
    ensures RequeueAll(s, now, t, [id], AllWorkspaces) == RequeueDead(s, now, t, id)
  {
    hide RequeueDead;
    assert [id][..0] == [];
    assert RequeueAll(s, now, t, [], AllWorkspaces) == s;
  }

  lemma QuietWorker(cfg: Config, s: Store, w: Worker, t: JobType, now: int, orphans: set<nat>)
    requires Quiet(w) && SlotsAddUp(cfg, w) && R(s, t).Keys == orphans
    ensures var w' := w.(orphans := orphans);
            Quiet(w') && SlotsAddUp(cfg, w') && WorkerInv(s, w', t, now)
  {
  }

  /** While the process boots, all processed jobs are orphans. */
  lemma AllOrphans(cfg: Config, sys: System, t: JobType)
    requires SysInv(cfg, sys) && sys.phase.Booting?
    ensures Quiet(W(sys, t)) && SlotsAddUp(cfg, W(sys, t)) && R(sys.store, t).Keys == W(sys, t).orphans
  {
    hide Inv, HeldAsStored;
    WorkerFacts(cfg, sys, t);
  }

  lemma RecoveredWorkers(cfg: Config, sys: System, s': Store, t: JobType, ids: seq<nat>)
    requires SysInv(cfg, sys) && sys.phase.Booting?
    requires R(s', t).Keys == R(sys.store, t).Keys - Elements(ids) && R(s', Other(t)) == R(sys.store, Other(t))
    ensures var w, v := W(sys, t).(orphans := W(sys, t).orphans - Elements(ids)), W(sys, Other(t));
            && WorkerInv(s', w, t, sys.now) && SlotsAddUp(cfg, w) && Quiet(w)
            && WorkerInv(s', v, Other(t), sys.now) && SlotsAddUp(cfg, v) && Quiet(v)
  {
    hide SysInv, SlotsAddUp, WorkerInv, Quiet;
    AllOrphans(cfg, sys, t);
    AllOrphans(cfg, sys, Other(t));
    QuietWorker(cfg, s', W(sys, t), t, sys.now, W(sys, t).orphans - Elements(ids));
    QuietWorker(cfg, s', W(sys, Other(t)), Other(t), sys.now, W(sys, Other(t)).orphans);
    assert W(sys, Other(t)).(orphans := W(sys, Other(t)).orphans) == W(sys, Other(t));
  }

  lemma RecoverKeeps(cfg: Config, sys: System, t: JobType, ids: seq<nat>)
    requires SysInv(cfg, sys) && Enabled(cfg, sys, RecoverStuck(t, ids))
    ensures SysInv(cfg, Next(cfg, sys, RecoverStuck(t, ids)))
  {
    hide Inv, Drained, Recover, SlotsAddUp, WorkerInv, Quiet;
    var s, sys' := sys.store, Next(cfg, sys, RecoverStuck(t, ids));
    var s' := Recover(s, sys.now, t, ids);
    RecoverDrains(s, sys.now, t, ids);
    DrainedSets(s, s', t, ids, Processing);
    RecoveredWorkers(cfg, sys, s', t, ids);
    forall u: JobType
      ensures WorkerInv(s', W(sys', u), u, sys.now) && SlotsAddUp(cfg, W(sys', u)) && Quiet(W(sys', u))
    {
      assert u == t || u == Other(t);
    }
  }

  /** Every step of the system keeps the invariant. */
  lemma StepKeeps(cfg: Config, sys: System, e: Event)
    requires Sensible(cfg) && SysInv(cfg, sys) && Enabled(cfg, sys, e)
    ensures SysInv(cfg, Next(cfg, sys, e))
  {
    hide SysInv;
    match e
    case Pass(d) => PassKeeps(cfg, sys, d);
    case Submit(t, workspace, reference, metadata) => SubmitKeeps(cfg, sys, t, workspace, reference, metadata);
    case Acquire(t) => AcquireKeeps(cfg, sys, t);
    case Fetch(t) => FetchKeeps(cfg, sys, t);
    case Decide(t) => DecideKeeps(cfg, sys, t);
    case Finish(t, id, outcome) => FinishKeeps(cfg, sys, t, id, outcome);
    case Release(t) => ReleaseKeeps(cfg, sys, t);
    case Requeue(t, id) => RequeueKeeps(cfg, sys, t, id);
    case RequeueMany(t, ids, scope) => RequeueManyKeeps(cfg, sys, t, ids, scope);
    case Crash => CrashKeeps(cfg, sys);
    case RecoverStuck(t, ids) => RecoverKeeps(cfg, sys, t, ids);
    case Serve => ServeKeeps(cfg, sys);
  }
}
