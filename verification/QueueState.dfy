/** The job queue as a value: what Redis holds, and what each queue operation makes
    of it. The class in Queue.dfy performs these operations step by step. */
module QueueState {

  datatype JobType = Diff | Analyze

  datatype Status = Pending | Processing | Completed | Dead

  datatype Job = Job(id: nat, jobType: JobType, workspace: string, reference: string, status: Status,
                     attempts: nat, maxAttempts: nat, lastError: string, metadata: map<string, string>,
                     createdAt: int, updatedAt: int, nextRunAt: int)

  /** The Redis keys of one job type: the pending list, head (left end) first, and the
      processing and dead sorted sets, member to score. */
  datatype Lane = Lane(pending: seq<nat>, processing: map<nat, int>, dead: map<nat, int>)

  datatype Store = Store(idCounter: nat, jobs: map<nat, Job>, diff: Lane, analyze: Lane,
                         enqueued: nat, completed: nat, deadTotal: nat, completedBy: map<string, nat>)

  const NO_KEYS := Lane([], map[], map[])
  const EMPTY := Store(0, map[], NO_KEYS, NO_KEYS, 0, 0, 0, map[])

  function L(s: Store, t: JobType): Lane {
    if t == Diff then s.diff else s.analyze
  }

  function SetLane(s: Store, t: JobType, l: Lane): Store {
    if t == Diff then s.(diff := l) else s.(analyze := l)
  }

  function P(s: Store, t: JobType): seq<nat> { L(s, t).pending }

  function R(s: Store, t: JobType): map<nat, int> { L(s, t).processing }

  function D(s: Store, t: JobType): map<nat, int> { L(s, t).dead }

  function CompletedBy(s: Store, workspace: string): nat {
    if workspace in s.completedBy then s.completedBy[workspace] else 0
  }

  // ----- the Redis commands -----

  function SetJob(s: Store, j: Job): Store {
    s.(jobs := s.jobs[j.id := j])
  }

  function PushLeft(s: Store, t: JobType, id: nat): Store {
    SetLane(s, t, L(s, t).(pending := [id] + P(s, t)))
  }

  function PopRight(s: Store, t: JobType): Store
    requires P(s, t) != []
  {
    SetLane(s, t, L(s, t).(pending := P(s, t)[..|P(s, t)| - 1]))
  }

  function AddProcessing(s: Store, t: JobType, id: nat, score: int): Store {
    SetLane(s, t, L(s, t).(processing := R(s, t)[id := score]))
  }

  function RemProcessing(s: Store, t: JobType, id: nat): Store {
    SetLane(s, t, L(s, t).(processing := R(s, t) - {id}))
  }

  function AddDead(s: Store, t: JobType, id: nat, score: int): Store {
    SetLane(s, t, L(s, t).(dead := D(s, t)[id := score]))
  }

  function RemDead(s: Store, t: JobType, id: nat): Store {
    SetLane(s, t, L(s, t).(dead := D(s, t) - {id}))
  }

  // ----- retry delays -----

  const MIN_INT64: int := -0x8000_0000_0000_0000
  const MAX_INT64: int := 0x7FFF_FFFF_FFFF_FFFF
  const SECOND: int := 1_000_000_000

  function Pow2(n: nat): nat {
    if n == 0 then 1 else 2 * Pow2(n - 1)
  }

  /** Signed 64-bit wrap-around. */
  function Wrap64(x: int): int {
    (x + 0x8000_0000_0000_0000) % 0x1_0000_0000_0000_0000 - 0x8000_0000_0000_0000
  }

  /** A whole float64 as int64; out of range, the conversion of amd64 processors. */
  function ToInt64(x: int): int {
    if MIN_INT64 <= x <= MAX_INT64 then x else MIN_INT64
  }

  /** The retry delay in nanoseconds, a time.Duration. */
  function BackoffNanos(attempts: nat): int
    requires attempts >= 1
  {
    Wrap64(ToInt64(30 * Pow2(attempts - 1)) * SECOND)
  }

  /** Unix time, in seconds, of the next run after a failure at `now`. */
  function NextRun(now: int, attempts: nat): int
    requires attempts >= 1
  {
    now + BackoffNanos(attempts) / SECOND
  }

  // ----- the operations of the queue -----

  function NewJob(s: Store, now: int, t: JobType, workspace: string, reference: string, metadata: map<string, string>,
                  maxAttempts: nat): Job
  {
    Job(s.idCounter + 1, t, workspace, reference, Pending, 0, maxAttempts, "", metadata, now, now, now)
  }

  function Enqueue(s: Store, now: int, t: JobType, workspace: string, reference: string, metadata: map<string, string>,
                   maxAttempts: nat): Store
  {
    var job := NewJob(s, now, t, workspace, reference, metadata, maxAttempts);
    var s1 := SetJob(s.(idCounter := s.idCounter + 1), job);
    PushLeft(s1, t, job.id).(enqueued := s.enqueued + 1)
  }

  datatype Fetched = Nothing | Lost(id: nat) | Got(job: Job)

  function Dequeue(s: Store, now: int, t: JobType): (Store, Fetched) {
    if P(s, t) == [] then (s, Nothing)
    else
      var id := P(s, t)[|P(s, t)| - 1];
      var s1 := PopRight(s, t);
      if id !in s.jobs then (s1, Lost(id))
      else
        var job := s.jobs[id].(status := Processing, updatedAt := now);
        (AddProcessing(SetJob(s1, job), t, job.id, now), Got(job))
  }

  /** A job fetched before its next run time goes back to the left end of the list. */
  function PutBack(s: Store, t: JobType, job: Job): Store {
    RemProcessing(PushLeft(SetJob(s, job.(status := Pending)), t, job.id), t, job.id)
  }

  function Complete(s: Store, now: int, job: Job): Store {
    var s1 := RemProcessing(SetJob(s, job.(status := Completed, updatedAt := now)), job.jobType, job.id);
    s1.(completed := s.completed + 1, completedBy := s.completedBy[job.workspace := CompletedBy(s, job.workspace) + 1])
  }

  /** `message` is the sanitised text of the error. */
  function FailedJob(job: Job, now: int, message: string): Job {
    var j := job.(attempts := job.attempts + 1, lastError := message, updatedAt := now);
    if j.attempts >= j.maxAttempts then j.(status := Dead)
    else j.(status := Pending, nextRunAt := NextRun(now, j.attempts))
  }

  function Fail(s: Store, now: int, job: Job, message: string): Store {
    var s1 := RemProcessing(s, job.jobType, job.id);
    var j := FailedJob(job, now, message);
    if j.status == Dead then AddDead(SetJob(s1, j), j.jobType, j.id, now).(deadTotal := s.deadTotal + 1)
    else PushLeft(SetJob(s1, j), j.jobType, j.id)
  }

  /** Recovery of one stuck job at start-up. */
  function RecoverOne(s: Store, now: int, t: JobType, id: nat): Store {
    if id !in s.jobs then s
    else
      var job := s.jobs[id];
      var s1 := RemProcessing(s, t, id);
      if job.attempts >= job.maxAttempts then
        var message := "recovered from stuck state, max attempts exceeded";
        var lost := job.(status := Dead, lastError := message, updatedAt := now);
        AddDead(SetJob(s1, lost), t, job.id, now)
      else
        PushLeft(SetJob(s1, job.(status := Pending, updatedAt := now)), t, id)
  }

  function Recover(s: Store, now: int, t: JobType, ids: seq<nat>): Store {
    if ids == [] then s else RecoverOne(Recover(s, now, t, ids[..|ids| - 1]), now, t, ids[|ids| - 1])
  }

  /** How many of the listed jobs `Recover` puts back. */
  function Recovered(s: Store, now: int, t: JobType, ids: seq<nat>): nat {
    if ids == [] then 0
    else
      var s1, id := Recover(s, now, t, ids[..|ids| - 1]), ids[|ids| - 1];
      Recovered(s, now, t, ids[..|ids| - 1])
      + if id in s1.jobs && s1.jobs[id].attempts < s1.jobs[id].maxAttempts then 1 else 0
  }

  predicate CanRequeue(s: Store, id: nat) {
    id in s.jobs && s.jobs[id].status == Dead
  }

  /** A dead job starts again from scratch. */
  function Revived(j: Job, now: int): Job {
    j.(status := Pending, attempts := 0, lastError := "", updatedAt := now, nextRunAt := now)
  }

  function RequeueDead(s: Store, now: int, t: JobType, id: nat): Store {
    if !CanRequeue(s, id) then s
    else
      var job := Revived(s.jobs[id], now);
      PushLeft(RemDead(SetJob(s, job), t, id), t, id)
  }

  /** Requeueing the listed dead jobs, of one workspace or (None) of all. */
  datatype Scope = AllWorkspaces | Workspace(name: string)

  predicate InScope(s: Store, id: nat, scope: Scope) {
    scope.AllWorkspaces? || (id in s.jobs && s.jobs[id].workspace == scope.name)
  }

  function RequeueAll(s: Store, now: int, t: JobType, ids: seq<nat>, scope: Scope): Store {
    if ids == [] then s
    else
      var s1 := RequeueAll(s, now, t, ids[..|ids| - 1], scope);
      var id := ids[|ids| - 1];
      if InScope(s1, id, scope) then RequeueDead(s1, now, t, id) else s1
  }

  /** How many of the listed jobs `RequeueAll` requeues. */
  function Requeued(s: Store, now: int, t: JobType, ids: seq<nat>, scope: Scope): nat {
    if ids == [] then 0
    else
      var s1 := RequeueAll(s, now, t, ids[..|ids| - 1], scope);
      var id := ids[|ids| - 1];
      Requeued(s, now, t, ids[..|ids| - 1], scope) + if InScope(s1, id, scope) && CanRequeue(s1, id) then 1 else 0
  }

  // ----- the order jobs are handed out in -----

  ghost predicate NoDuplicates(s: seq<nat>) {
    forall i, j :: 0 <= i < j < |s| ==> s[i] != s[j]
  }

  /** A snapshot of a sorted set: its members with a score of at most `cutoff`, lowest score first. */
  ghost predicate Snapshot(m: map<nat, int>, cutoff: int, ids: seq<nat>) {
    && NoDuplicates(ids)
    && (forall id :: id in ids <==> id in m && m[id] <= cutoff)
    && (forall i, j :: 0 <= i < j < |ids| && ids[i] in m && ids[j] in m ==> m[ids[i]] <= m[ids[j]])
  }

  /** A snapshot of a whole sorted set. */
  ghost predicate FullSnapshot(m: map<nat, int>, ids: seq<nat>) {
    && NoDuplicates(ids)
    && (forall id :: id in ids <==> id in m)
    && (forall i, j :: 0 <= i < j < |ids| && ids[i] in m && ids[j] in m ==> m[ids[i]] <= m[ids[j]])
  }
}
