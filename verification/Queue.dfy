/** The queue of backend/pkg/queue/queue.go. Every method is one atomic step on the
    contents of Redis; the statements inside follow the order of the Redis commands. */
module Queue {
  import opened Slices
  import opened QueueState
  import opened QueueInvariant
  import opened QueueOperations
  import opened QueueBulk

  datatype Result<+T> = Ok(value: T) | Error(message: string)

  datatype Counts = Counts(pending: nat, processing: nat, completed: nat, dead: nat)

  /** LREM with count 1: the first occurrence from the head goes. */
  function RemoveFirst(l: seq<nat>, id: nat): seq<nat> {
    if l == [] then [] else if l[0] == id then l[1..] else [l[0]] + RemoveFirst(l[1..], id)
  }

  /** Jobs in the order in which Dequeue hands them out. */
  function HandOutOrder(s: Store, t: JobType): seq<nat> {
    Reverse(P(s, t))
  }

  function Min(a: int, b: int): int { if a <= b then a else b }

  function ClampLimit(limit: int): nat {
    if limit <= 0 then 20 else if limit > 100 then 100 else limit
  }

  function ClampOffset(offset: int): nat {
    if offset < 0 then 0 else offset
  }

  /** The ids of one page of the hand-out order. */
  function Page(s: Store, t: JobType, offset: nat, limit: nat): seq<nat> {
    var order := HandOutOrder(s, t);
    if offset >= |order| then [] else order[offset..Min(offset + limit, |order|)]
  }

  function Loaded(s: Store, ids: seq<nat>): seq<Job> {
    if ids == [] then []
    else
      var id := ids[|ids| - 1];
      Loaded(s, ids[..|ids| - 1]) + if id in s.jobs then [s.jobs[id]] else []
  }

  function StatsOf(s: Store, t: JobType): Counts {
    Counts(|P(s, t)|, |R(s, t)|, s.completed, |D(s, t)|)
  }

  /** The jobs of a type whose records carry the given status. */
  function JobsIn(s: Store, t: JobType, st: Status): set<nat> {
    set id | id in s.jobs && s.jobs[id].jobType == t && s.jobs[id].status == st
  }

  class Queue {
    const maxAttempts: nat
    const lockTimeout: int
    /** What Redis holds. */
    var store: Store
    /** The lists that LMOVE moves a job through. */
    var temp: map<JobType, seq<nat>>

    constructor (configuredAttempts: int, configuredTimeout: int, redis: Store)
      ensures maxAttempts == (if configuredAttempts <= 0 then 5 else configuredAttempts) && maxAttempts > 0
      ensures lockTimeout == (if configuredTimeout <= 0 then 600 else configuredTimeout) && lockTimeout > 0
      ensures store == redis
    {
      maxAttempts := if configuredAttempts <= 0 then 5 else configuredAttempts;
      lockTimeout := if configuredTimeout <= 0 then 600 else configuredTimeout;
      store := redis;
      temp := map[];
    }

    method EnqueueJob(now: int, t: JobType, workspace: string, reference: string, metadata: map<string, string>)
        returns (id: nat)
      modifies this`store
      ensures store == Enqueue(old(store), now, t, workspace, reference, metadata, maxAttempts)
      ensures id == old(store).idCounter + 1
    {
      store := store.(idCounter := store.idCounter + 1);
      id := store.idCounter;
      var job := Job(id, t, workspace, reference, Pending, 0, maxAttempts, "", metadata, now, now, now);
      store := SetJob(store, job);
      store := PushLeft(store, t, job.id);
      store := store.(enqueued := store.enqueued + 1);
    }

    method DequeueJob(now: int, t: JobType) returns (r: Fetched)
      modifies this
      ensures (store, r) == Dequeue(old(store), now, t)
      ensures Temp(t) == old(Temp(t))
    {
      if P(store, t) == [] {
        return Nothing;
      }
      var id := P(store, t)[|P(store, t)| - 1];
      store := PopRight(store, t);
      temp := temp[t := [id] + Temp(t)];
      temp := temp[t := RemoveFirst(Temp(t), id)];
      if id !in store.jobs {
        return Lost(id);
      }
      var job := store.jobs[id];
      job := job.(status := Processing);
      job := job.(updatedAt := now);
      store := SetJob(store, job);
      store := AddProcessing(store, t, job.id, now);
      return Got(job);
    }

    function Temp(t: JobType): seq<nat>
      reads this`temp
    {
      if t in temp then temp[t] else []
    }

    method PutBackJob(t: JobType, job: Job)
      modifies this`store
      ensures store == PutBack(old(store), t, job)
    {
      store := SetJob(store, job.(status := Pending));
      store := PushLeft(store, t, job.id);
      store := RemProcessing(store, t, job.id);
    }

    method CompleteJob(now: int, job: Job)
      modifies this`store
      ensures store == Complete(old(store), now, job)
    {
      store := SetJob(store, job.(status := Completed, updatedAt := now));
      store := RemProcessing(store, job.jobType, job.id);
      store := store.(completed := store.completed + 1);
      store := store.(completedBy := store.completedBy[job.workspace := CompletedBy(store, job.workspace) + 1]);
    }

    method FailJob(now: int, failed: Job, message: string)
      modifies this`store
      ensures store == Fail(old(store), now, failed, message)
    {
      var job := failed.(attempts := failed.attempts + 1);
      job := job.(lastError := message);
      job := job.(updatedAt := now);
      store := RemProcessing(store, job.jobType, job.id);
      if job.attempts >= job.maxAttempts {
        job := job.(status := Dead);
        store := SetJob(store, job);
        store := AddDead(store, job.jobType, job.id, job.updatedAt);
        store := store.(deadTotal := store.deadTotal + 1);
        return;
      }
      var backoff := BackoffNanos(job.attempts);
      job := job.(status := Pending);
      job := job.(nextRunAt := now + backoff / SECOND);
      store := SetJob(store, job);
      store := PushLeft(store, job.jobType, job.id);
    }

    /** ZRANGE by score: members with a score of at most `cutoff`, or all of them, lowest score first. */
    static method Range(m: map<nat, int>, bounded: bool, cutoff: int) returns (ids: seq<nat>)
      ensures if bounded then Snapshot(m, cutoff, ids) else FullSnapshot(m, ids)
    {
      ids := [];
      var todo := set id | id in m && (bounded ==> m[id] <= cutoff);
      ghost var all := todo;
      while todo != {}
        invariant todo <= all
        invariant NoDuplicates(ids) && forall id :: id in ids <==> id in all && id !in todo
        invariant forall i, j :: 0 <= i < j < |ids| && ids[i] in m && ids[j] in m ==> m[ids[i]] <= m[ids[j]]
        invariant forall i, id :: 0 <= i < |ids| && ids[i] in m && id in todo ==> m[ids[i]] <= m[id]
        decreases todo
      {
        var id := Lowest(m, todo);
        todo := todo - {id};
        ids := ids + [id];
      }
    }

    static method Lowest(m: map<nat, int>, ids: set<nat>) returns (best: nat)
      requires ids != {} && ids <= m.Keys
      ensures best in ids && forall id :: id in ids ==> m[best] <= m[id]
    {
      best :| best in ids;
      var todo := ids - {best};
      while todo != {}
        invariant best in ids && todo <= ids
        invariant forall id :: id in ids && id !in todo ==> m[best] <= m[id]
        decreases todo
      {
        var id :| id in todo;
        todo := todo - {id};
        if m[id] < m[best] {
          best := id;
        }
      }
    }

    /** One stuck job; it is recovered if it has attempts left. */
    method RecoverJob(now: int, t: JobType, id: nat) returns (recovered: bool)
      modifies this`store
      ensures store == RecoverOne(old(store), now, t, id)
      ensures recovered <==> id in old(store).jobs && old(store).jobs[id].attempts < old(store).jobs[id].maxAttempts
    {
      if id !in store.jobs {
        return false;
      }
      var job := store.jobs[id];
      store := RemProcessing(store, t, id);
      if job.attempts >= job.maxAttempts {
        job := job.(status := Dead, lastError := "recovered from stuck state, max attempts exceeded");
        job := job.(updatedAt := now);
        store := SetJob(store, job);
        store := AddDead(store, t, job.id, job.updatedAt);
        return false;
      }
      job := job.(status := Pending);
      job := job.(updatedAt := now);
      store := SetJob(store, job);
      store := PushLeft(store, t, id);
      return true;
    }

    method RecoverStuckJobs(now: int, t: JobType) returns (recovered: nat, ghost ids: seq<nat>)
      modifies this`store
      ensures Snapshot(R(old(store), t), now - lockTimeout, ids)
      ensures store == Recover(old(store), now, t, ids) && recovered == Recovered(old(store), now, t, ids)
      ensures Inv(old(store)) ==> Inv(store) && recovered == |ids|
    {
      hide Inv, RecoverOne;
      var stuck := Range(R(store, t), true, now - lockTimeout);
      ids := stuck;
      recovered := 0;
      for i := 0 to |stuck|
        invariant store == Recover(old(store), now, t, stuck[..i])
        invariant recovered == Recovered(old(store), now, t, stuck[..i])
      {
        assert stuck[..i + 1][..i] == stuck[..i];
        var ok := RecoverJob(now, t, stuck[i]);
        if ok {
          recovered := recovered + 1;
        }
      }
      assert stuck[..|stuck|] == stuck;
      if Inv(old(store)) {
        RecoverDrains(old(store), now, t, stuck);
        AllRecovered(old(store), now, t, stuck);
      }
    }

    method RequeueDeadJob(now: int, t: JobType, id: nat) returns (r: Result<()>)
      modifies this`store
      ensures store == RequeueDead(old(store), now, t, id)
      ensures r.Ok? <==> CanRequeue(old(store), id)
    {
      if id !in store.jobs {
        return Error("loading job");
      }
      var job := store.jobs[id];
      if job.status != Dead {
        return Error("job is not in dead-letter queue");
      }
      job := job.(status := Pending, attempts := 0, lastError := "");
      job := job.(updatedAt := now, nextRunAt := now);
      store := SetJob(store, job);
      store := RemDead(store, t, id);
      store := PushLeft(store, t, id);
      return Ok(());
    }

    method RequeueAllDead(now: int, t: JobType) returns (count: nat)
      modifies this`store
      ensures exists ids :: FullSnapshot(D(old(store), t), ids)
                            && store == RequeueAll(old(store), now, t, ids, AllWorkspaces)
                            && count == Requeued(old(store), now, t, ids, AllWorkspaces)
      ensures Inv(old(store)) ==> Inv(store) && D(store, t) == map[] && count == |D(old(store), t)|
    {
      hide Inv, RequeueDead, NoDuplicates;
      var ids := Range(D(store, t), false, 0);
      count := 0;
      for i := 0 to |ids|
        invariant store == RequeueAll(old(store), now, t, ids[..i], AllWorkspaces)
        invariant count == Requeued(old(store), now, t, ids[..i], AllWorkspaces)
      {
        assert ids[..i + 1][..i] == ids[..i];
        var r := RequeueDeadJob(now, t, ids[i]);
        if r.Error? {
          continue;
        }
        count := count + 1;
      }
      assert ids[..|ids|] == ids;
      if Inv(old(store)) {
        RequeueAllDrains(old(store), now, t, ids, AllWorkspaces);
        RequeueAllEmpties(old(store), now, t, ids);
      }
    }

    method RequeueAllDeadForWorkspace(now: int, t: JobType, workspace: string) returns (count: nat)
      modifies this`store
      ensures exists ids :: FullSnapshot(D(old(store), t), ids)
                            && store == RequeueAll(old(store), now, t, ids, Workspace(workspace))
                            && count == Requeued(old(store), now, t, ids, Workspace(workspace))
      ensures Inv(old(store)) ==>
                && Inv(store) && count + |D(store, t)| == |D(old(store), t)|
                && forall id :: id in D(store, t) <==>
                     id in D(old(store), t) && id in old(store).jobs && old(store).jobs[id].workspace != workspace
    {
      hide Inv;
      var ids := Range(D(store, t), false, 0);
      count := 0;
      for i := 0 to |ids|
        invariant store == RequeueAll(old(store), now, t, ids[..i], Workspace(workspace))
        invariant count == Requeued(old(store), now, t, ids[..i], Workspace(workspace))
      {
        assert ids[..i + 1][..i] == ids[..i];
        if ids[i] !in store.jobs {
          continue;
        }
        if store.jobs[ids[i]].workspace != workspace {
          continue;
        }
        var r := RequeueDeadJob(now, t, ids[i]);
        if r.Error? {
          continue;
        }
        count := count + 1;
      }
      assert ids[..|ids|] == ids;
      if Inv(old(store)) {
        RequeueAllDrains(old(store), now, t, ids, Workspace(workspace));
        RequeueWorkspaceTakesItsOwn(old(store), now, t, ids, workspace);
        RequeueWorkspaceCount(old(store), now, t, ids, workspace);
      }
    }

    /** Sizes of the three places of a type; `completed` is the total over both types. */
    method Stats(t: JobType) returns (c: Counts)
      ensures c == StatsOf(store, t)
      ensures Inv(store) ==>
                && c.pending == |JobsIn(store, t, Pending)| && c.processing == |JobsIn(store, t, Processing)|
                && c.dead == |JobsIn(store, t, Dead)| && c.completed == store.completed
    {
      c := Counts(|P(store, t)|, |R(store, t)|, store.completed, |D(store, t)|);
      if Inv(store) {
        StatsCountJobs(store, t);
      }
    }

    /** LRANGE with bounds inside the list. */
    static method ListRange(l: seq<nat>, start: nat, stop: nat) returns (a: array<nat>)
      requires start <= stop < |l|
      ensures fresh(a) && a[..a.Length] == l[start..stop + 1]
    {
      var part := l[start..stop + 1];
      a := new nat[|part|](i requires 0 <= i < |part| => part[i]);
    }

    method PendingJobs(t: JobType, offset: int, limit: int) returns (page: seq<Job>, total: nat)
      ensures total == |P(store, t)|
      ensures page == Loaded(store, Page(store, t, ClampOffset(offset), ClampLimit(limit)))
      ensures Inv(store) ==>
                IsPage(store, t, if offset < 0 then 0 else offset,
                       if limit <= 0 then 20 else if limit > 100 then 100 else limit, page)
    {
      hide Loaded, Page, Reverse, Inv, IsPage, ClampOffset, ClampLimit;
      if Inv(store) {
        PagePositions(store, t, ClampOffset(offset), ClampLimit(limit));
      }
      Clamped(offset, limit);
      var lim, off := limit, offset;
      if lim <= 0 {
        lim := 20;
      }
      if lim > 100 {
        lim := 100;
      }
      if off < 0 {
        off := 0;
      }
      total := |P(store, t)|;
      if total == 0 || off >= total {
        EmptyPage(store, t, off, ClampLimit(limit));
        return [], total;
      }
      var start := off;
      var stop := start + lim - 1;
      var tailStart := total - 1 - stop;
      var tailStop := total - 1 - start;
      if tailStart < 0 {
        tailStart := 0;
      }
      var ids := ListRange(P(store, t), tailStart, tailStop);
      ReverseSlice(ids, ids.Length);
      PageIsReversedTail(store, t, off, lim, ids[..ids.Length]);
      page := LoadJobs(ids);
    }

    /** Fetch the jobs of a page, leaving out ids without a record. */
    method LoadJobs(ids: array<nat>) returns (page: seq<Job>)
      ensures page == Loaded(store, ids[..ids.Length])
    {
      page := [];
      for i := 0 to ids.Length
        invariant page == Loaded(store, ids[..i])
      {
        assert ids[..i + 1][..i] == ids[..i];
        if ids[i] !in store.jobs {
          continue;
        }
        page := page + [store.jobs[ids[i]]];
      }
    }
  }

  /** While recovery runs, the jobs still to come are still in the processing set. */
  lemma StillStuck(s: Store, now: int, t: JobType, stuck: seq<nat>, i: nat)
    requires Inv(s) && i < |stuck| && NoDuplicates(stuck) && forall id :: id in stuck ==> id in R(s, t)
    ensures var s1 := Recover(s, now, t, stuck[..i]);
            stuck[i] in s1.jobs && s1.jobs[stuck[i]].attempts < s1.jobs[stuck[i]].maxAttempts
  {
    hide Inv, RecoverOne, Moved;
    RecoverDrains(s, now, t, stuck[..i]);
    assert stuck[i] !in stuck[..i];
    RecoverOneMoves(Recover(s, now, t, stuck[..i]), now, t, stuck[i]);
  }

  /** Under the invariant every stuck job is recovered. */
  lemma {:induction false} AllRecovered(s: Store, now: int, t: JobType, stuck: seq<nat>)
    requires Inv(s) && NoDuplicates(stuck) && forall id :: id in stuck ==> id in R(s, t)
    ensures Recovered(s, now, t, stuck) == |stuck|
    decreases |stuck|
  {
    hide Inv, Recover;
    if stuck != [] {
      var n := |stuck| - 1;
      assert forall id :: id in stuck[..n] ==> id in stuck;
      AllRecovered(s, now, t, stuck[..n]);
      StillStuck(s, now, t, stuck, n);
    }
  }

  /** Under the invariant the sizes are the numbers of jobs of each status. */
  lemma StatsCountJobs(s: Store, t: JobType)
    requires Inv(s)
    ensures |P(s, t)| == |JobsIn(s, t, Pending)| && |R(s, t)| == |JobsIn(s, t, Processing)|
              && |D(s, t)| == |JobsIn(s, t, Dead)|
  {
    hide Inv;
    forall id
      ensures id in P(s, t) <==> id in JobsIn(s, t, Pending)
      ensures id in R(s, t) <==> id in JobsIn(s, t, Processing)
      ensures id in D(s, t) <==> id in JobsIn(s, t, Dead)
    {
      StatusTellsPlace(s, t, id);
    }
    ListHasNoDuplicates(s, t);
    SnapshotSize(P(s, t));
    assert Elements(P(s, t)) == JobsIn(s, t, Pending);
    assert R(s, t).Keys == JobsIn(s, t, Processing) && D(s, t).Keys == JobsIn(s, t, Dead);
    assert |R(s, t).Keys| == |R(s, t)| && |D(s, t).Keys| == |D(s, t)|;
  }

  lemma ListHasNoDuplicates(s: Store, t: JobType)
    requires Inv(s)
    ensures NoDuplicates(P(s, t))
  {
    assert LaneClosed(L(s, t), s.jobs.Keys);
  }

  lemma StatusTellsPlace(s: Store, t: JobType, id: nat)
    requires Inv(s)
    ensures id in P(s, t) <==> id in JobsIn(s, t, Pending)
    ensures id in R(s, t) <==> id in JobsIn(s, t, Processing)
    ensures id in D(s, t) <==> id in JobsIn(s, t, Dead)
  {
    assert LaneClosed(L(s, t), s.jobs.Keys);
    if id in s.jobs {
      assert WellKept(s, id);
      assert InLane(L(s, t), id, StatusIn(s.jobs[id], t));
    }
  }

  lemma EmptyPage(s: Store, t: JobType, off: nat, lim: nat)
    requires off >= |P(s, t)|
    ensures Loaded(s, Page(s, t, off, lim)) == []
  {
  }

  lemma PageIsReversedTail(s: Store, t: JobType, off: nat, lim: nat, ids: seq<nat>)
    requires off < |P(s, t)| && lim > 0
    requires var total := |P(s, t)|;
             var from := if total - 1 - (off + lim - 1) < 0 then 0 else total - 1 - (off + lim - 1);
             ids == Reverse(P(s, t)[from..total - off])
    ensures ids == Page(s, t, off, lim)
  {
  }

  lemma RequeueWorkspaceCount(s: Store, now: int, t: JobType, ids: seq<nat>, workspace: string)
    requires Inv(s) && FullSnapshot(D(s, t), ids)
    ensures Requeued(s, now, t, ids, Workspace(workspace)) + |D(RequeueAll(s, now, t, ids, Workspace(workspace)), t)|
              == |D(s, t)|
  {
    hide Inv, RequeueAll, Requeued;
    RequeueAllDrains(s, now, t, ids, Workspace(workspace));
    SelectedAre(s, ids, Workspace(workspace));
    var sel := Selected(s, ids, Workspace(workspace));
    SnapshotSize(sel);
    DropSelected(D(s, t), sel);
  }

  lemma DropSelected(m: map<nat, int>, sel: seq<nat>)
    requires NoDuplicates(sel) && forall x :: x in sel ==> x in m
    ensures |m - Elements(sel)| + |sel| == |m|
  {
    SnapshotSize(sel);
    assert (m - Elements(sel)).Keys == m.Keys - Elements(sel);
    assert |m.Keys - Elements(sel)| == |m.Keys| - |Elements(sel)|;
  }

  // ----- paging -----

  lemma Clamped(offset: int, limit: int)
    ensures ClampLimit(limit) == if limit <= 0 then 20 else if limit > 100 then 100 else limit
    ensures ClampOffset(offset) == if offset < 0 then 0 else offset
  {
  }

  /** Entry k of a page is the pending job at place offset + k from the right end, the end
      jobs are taken from; a page is as long as asked for, as far as there are jobs. */
  ghost predicate IsPage(s: Store, t: JobType, offset: nat, limit: nat, page: seq<Job>) {
    && |page| == (if offset >= |P(s, t)| then 0 else Min(limit, |P(s, t)| - offset))
    && forall k :: 0 <= k < |page| ==>
         var id := P(s, t)[|P(s, t)| - 1 - (offset + k)];
         id in s.jobs && page[k] == s.jobs[id] && page[k].status == Pending
  }

  /** Under the invariant no job of a page is missing: a page shows exactly those positions of the order. */
  lemma {:induction false} AllLoaded(s: Store, ids: seq<nat>)
    requires forall id :: id in ids ==> id in s.jobs
    ensures |Loaded(s, ids)| == |ids| && forall k :: 0 <= k < |ids| ==> Loaded(s, ids)[k] == s.jobs[ids[k]]
  {
    if ids != [] {
      AllLoaded(s, ids[..|ids| - 1]);
      assert forall id :: id in ids[..|ids| - 1] ==> id in ids;
    }
  }

  lemma PageIds(s: Store, t: JobType, offset: nat, limit: nat)
    ensures var ids := Page(s, t, offset, limit);
            && |ids| == (if offset >= |P(s, t)| then 0 else Min(limit, |P(s, t)| - offset))
            && forall k :: 0 <= k < |ids| ==> ids[k] == P(s, t)[|P(s, t)| - 1 - (offset + k)] && ids[k] in P(s, t)
  {
    forall k | 0 <= k < |Page(s, t, offset, limit)|
      ensures Page(s, t, offset, limit)[k] == P(s, t)[|P(s, t)| - 1 - (offset + k)]
    {
      assert Page(s, t, offset, limit)[k] == HandOutOrder(s, t)[offset + k];
    }
  }

  lemma PagePositions(s: Store, t: JobType, offset: nat, limit: nat)
    requires Inv(s)
    ensures IsPage(s, t, offset, limit, Loaded(s, Page(s, t, offset, limit)))
  {
    hide Inv, Loaded, Page;
    var ids := Page(s, t, offset, limit);
    PageIds(s, t, offset, limit);
    forall id | id in ids
      ensures id in s.jobs && s.jobs[id].status == Pending
    {
      PlaceFacts(s, t, id, Pending);
    }
    AllLoaded(s, ids);
    forall k | 0 <= k < |ids|
      ensures var id := P(s, t)[|P(s, t)| - 1 - (offset + k)];
              id in s.jobs && Loaded(s, ids)[k] == s.jobs[id] && s.jobs[id].status == Pending
    {
      assert ids[k] in ids;
    }
  }

  /** The first pages, laid end to end, are the start of the hand-out order. */
  function Pages(s: Store, t: JobType, limit: nat, count: nat): seq<nat> {
    if count == 0 then [] else Pages(s, t, limit, count - 1) + Page(s, t, (count - 1) * limit, limit)
  }

  /** Consecutive pages tile the queue: no gap and no repetition, and enough pages show all of it. */
  lemma {:induction false} PagesTile(s: Store, t: JobType, limit: nat, count: nat)
    ensures var order := HandOutOrder(s, t);
            Pages(s, t, limit, count) == order[..Min(count * limit, |order|)]
  {
    var order := HandOutOrder(s, t);
    if count > 0 {
      PagesTile(s, t, limit, count - 1);
      assert count * limit == (count - 1) * limit + limit;
      var from, to := Min((count - 1) * limit, |order|), Min(count * limit, |order|);
      assert Page(s, t, (count - 1) * limit, limit) == order[from..to];
      assert order[..from] + order[from..to] == order[..to];
    } else {
      assert count * limit == 0;
    }
  }

  /** The first job of the first page is the one the next Dequeue returns. */
  lemma FirstPageFirst(s: Store, now: int, t: JobType, limit: int)
    requires Inv(s) && P(s, t) != []
    ensures var page := Loaded(s, Page(s, t, 0, ClampLimit(limit)));
            && page != [] && Dequeue(s, now, t).1.Got? && Dequeue(s, now, t).1.job.id == page[0].id
  {
    hide Inv, Moved, Loaded, Dequeue;
    var ids := Page(s, t, 0, ClampLimit(limit));
    DequeueMoves(s, now, t);
    forall id | id in ids
      ensures id in s.jobs && s.jobs[id].id == id
    {
      assert id in P(s, t);
      PlaceFacts(s, t, id, Pending);
    }
    AllLoaded(s, ids);
    assert ids[0] == P(s, t)[|P(s, t)| - 1];
  }
}
