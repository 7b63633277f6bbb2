/** Each queue operation moves one job from one place to another, and every such move
    keeps the invariant of QueueInvariant. */
module QueueOperations {
  import opened QueueState
  import opened QueueInvariant

  /** How the list of a job's own type changes when the job moves: jobs leave at the
      right end and enter at the left end. */
  ghost predicate ListMoved(l: seq<nat>, l': seq<nat>, id: nat, from: Status, to: Status) {
    if from == Pending then l != [] && l[|l| - 1] == id && l' == l[..|l| - 1]
    else if to == Pending then l' == [id] + l
    else l' == l
  }

  ghost predicate SetMoved(m: map<nat, int>, m': map<nat, int>, id: nat, score: int, leaves: bool, enters: bool) {
    if leaves then m' == m - {id}
    else if enters then m' == m[id := score]
    else m' == m
  }

  ghost predicate LaneMoved(l: Lane, l': Lane, id: nat, from: Status, to: Status, score: int) {
    && ListMoved(l.pending, l'.pending, id, from, to)
    && SetMoved(l.processing, l'.processing, id, score, from == Processing, to == Processing)
    && SetMoved(l.dead, l'.dead, id, score, from == Dead, to == Dead)
  }

  function Other(t: JobType): JobType {
    if t == Diff then Analyze else Diff
  }

  /** The job `j'` has moved from place `from` to place `to` of its type; nothing else has changed. */
  ghost predicate Moved(s: Store, s': Store, j': Job, from: Status, to: Status, score: int) {
    var t, id := j'.jobType, j'.id;
    && id in s.jobs && s.jobs[id].status == from && s.jobs[id].jobType == t && from != to && from != Completed
    && s'.jobs == s.jobs[id := j'] && s'.idCounter == s.idCounter && s'.enqueued == s.enqueued
    && j'.status == to && AttemptsInBounds(j')
    && LaneMoved(L(s, t), L(s', t), id, from, to, score) && L(s', Other(t)) == L(s, Other(t))
    && s'.completed == s.completed + (if to == Completed then 1 else 0)
    && s'.completedBy == (if to == Completed then s.completedBy[j'.workspace := CompletedBy(s, j'.workspace) + 1]
        else s.completedBy)
  }

  lemma ListKept(l: seq<nat>, l': seq<nat>, id: nat, from: Status, to: Status)
    requires NoDuplicates(l) && ListMoved(l, l', id, from, to) && from != to
    requires id in l <==> from == Pending
    ensures NoDuplicates(l')
    ensures forall x :: x in l' <==> if x == id then to == Pending else x in l
    ensures |l'| == |l| + (if to == Pending then 1 else 0) - (if from == Pending then 1 else 0)
  {
    if from == Pending {
      assert l == l' + [id];
    }
  }

  lemma SetKept(m: map<nat, int>, m': map<nat, int>, id: nat, score: int, leaves: bool, enters: bool)
    requires SetMoved(m, m', id, score, leaves, enters) && !(leaves && enters)
    requires id in m <==> leaves
    ensures forall x :: x in m' <==> if x == id then enters else x in m
    ensures |m'| == |m| + (if enters then 1 else 0) - (if leaves then 1 else 0)
  {
    SizeAdd(m, id, score);
    SizeRemove(m, id);
  }

  lemma LaneKept(l: Lane, l': Lane, id: nat, from: Status, to: Status, score: int)
    requires LaneMoved(l, l', id, from, to, score) && from != to && NoDuplicates(l.pending) && InLane(l, id, from)
    ensures NoDuplicates(l'.pending) && InLane(l', id, to) && OthersStayInLane(l, l', id)
    ensures Size(l') == Size(l) + (if to == Completed then 0 else 1) - (if from == Completed then 0 else 1)
  {
    ListKept(l.pending, l'.pending, id, from, to);
    SetKept(l.processing, l'.processing, id, score, from == Processing, to == Processing);
    SetKept(l.dead, l'.dead, id, score, from == Dead, to == Dead);
  }

  lemma PlacesAfter(s: Store, s': Store, j': Job, from: Status, to: Status, score: int)
    requires Moved(s, s', j', from, to, score)
    requires InPlace(s, j'.id) && forall t :: NoDuplicates(L(s, t).pending)
    ensures OthersStay(s, s', j'.id) && WellKept(s', j'.id) && forall t :: NoDuplicates(L(s', t).pending)
    ensures Live(s') == Live(s) - if to == Completed then 1 else 0
  {
    var t, u, id := j'.jobType, Other(j'.jobType), j'.id;
    assert InLane(L(s, t), id, StatusIn(s.jobs[id], t));
    assert InLane(L(s, u), id, StatusIn(s.jobs[id], u));
    LaneKept(L(s, t), L(s', t), id, from, to, score);
    hide InLane, LaneMoved, NoDuplicates;
    forall v: JobType
      ensures InLane(L(s', v), id, StatusIn(j', v))
      ensures OthersStayInLane(L(s, v), L(s', v), id)
      ensures NoDuplicates(L(s', v).pending)
    {
      assert v == t || v == u;
    }
  }

  ghost predicate Places(s: Store) {
    Closed(s) && forall x :: x in s.jobs ==> WellKept(s, x)
  }

  lemma MoveKeepsPlaces(s: Store, s': Store, j': Job, from: Status, to: Status, score: int)
    requires Places(s) && Moved(s, s', j', from, to, score)
    ensures Places(s') && OthersStay(s, s', j'.id)
    ensures Live(s') == Live(s) - if to == Completed then 1 else 0
  {
    var id := j'.id;
    assert WellKept(s, id);
    forall t
      ensures NoDuplicates(L(s, t).pending)
    {
      assert LaneClosed(L(s, t), s.jobs.Keys);
    }
    assert id in s.jobs && s'.idCounter == s.idCounter;
    PlacesAfter(s, s', j', from, to, score);
    hide WellKept, OthersStay, LaneClosed, NoDuplicates, Moved;
    OneMoved(s, s', id);
  }

  lemma MoveKeeps(s: Store, s': Store, j': Job, from: Status, to: Status, score: int)
    requires Inv(s) && Moved(s, s', j', from, to, score)
    ensures Inv(s') && OthersStay(s, s', j'.id)
  {
    hide WellKept, OthersStay, Closed, LaneMoved, Live, Sum, AttemptsInBounds;
    MoveKeepsPlaces(s, s', j', from, to, score);
    if to == Completed {
      SumIncrement(s.completedBy, j'.workspace);
    }
  }

  // ----- the operations are moves -----

  lemma EnqueueKeeps(s: Store, now: int, t: JobType, workspace: string, reference: string,
                     metadata: map<string, string>, maxAttempts: nat)
    requires Inv(s) && maxAttempts > 0
    ensures var s' := Enqueue(s, now, t, workspace, reference, metadata, maxAttempts);
            Inv(s') && OthersStay(s, s', s.idCounter + 1)
  {
    hide WellKept, Closed, OthersStay, Sum;
    EnqueueKeepsPlaces(s, Enqueue(s, now, t, workspace, reference, metadata, maxAttempts), t,
                       NewJob(s, now, t, workspace, reference, metadata, maxAttempts));
  }

  lemma EnqueueKeepsPlaces(s: Store, s': Store, t: JobType, job: Job)
    requires Places(s)
    requires job.id == s.idCounter + 1 == s'.idCounter && job.jobType == t && job.status == Pending
               && AttemptsInBounds(job)
    requires s'.jobs == s.jobs[job.id := job]
    requires L(s', t) == L(s, t).(pending := [job.id] + P(s, t)) && L(s', Other(t)) == L(s, Other(t))
    ensures Places(s') && OthersStay(s, s', job.id) && Live(s') == Live(s) + 1
  {
    var id := job.id;
    assert id !in s.jobs.Keys;
    forall u
      ensures InLane(L(s, u), id, Completed) && NoDuplicates(L(s, u).pending)
    {
      assert LaneClosed(L(s, u), s.jobs.Keys);
    }
    LaneKept(L(s, t), L(s', t), id, Completed, Pending, 0);
    hide InLane, NoDuplicates, LaneClosed, OthersStayInLane;
    forall v: JobType
      ensures InLane(L(s', v), id, StatusIn(s'.jobs[id], v))
      ensures NoDuplicates(L(s', v).pending)
    {
      assert L(s', v) == if v == t then L(s', t) else L(s, v);
    }
    EnqueueOthers(s, s', id, t);
    hide WellKept, OthersStay;
    OneMoved(s, s', id);
  }

  lemma EnqueueOthers(s: Store, s': Store, id: nat, t: JobType)
    requires id in s'.jobs && s'.jobs == s.jobs[id := s'.jobs[id]] && id !in s.jobs
    requires OthersStayInLane(L(s, t), L(s', t), id) && L(s', Other(t)) == L(s, Other(t))
    ensures OthersStay(s, s', id)
  {
    forall v: JobType
      ensures OthersStayInLane(L(s, v), L(s', v), id)
    {
      assert v == t || v == Other(t);
    }
  }

  /** What the invariant says of one job. */
  lemma Facts(s: Store, id: nat)
    requires Inv(s) && id in s.jobs
    ensures s.jobs[id].id == id && AttemptsInBounds(s.jobs[id]) && InPlace(s, id)
    ensures forall t :: InLane(L(s, t), id, StatusIn(s.jobs[id], t))
  {
    assert WellKept(s, id);
  }

  /** A job found in a place exists, and has that place's type and status. */
  lemma PlaceFacts(s: Store, t: JobType, id: nat, st: Status)
    requires Inv(s) && st != Completed
    requires match st
             case Pending => id in P(s, t)
             case Processing => id in R(s, t)
             case Dead => id in D(s, t)
             case Completed => true
    ensures id in s.jobs && s.jobs[id].id == id && s.jobs[id].jobType == t && s.jobs[id].status == st
    ensures AttemptsInBounds(s.jobs[id])
  {
    assert LaneClosed(L(s, t), s.jobs.Keys);
    Facts(s, id);
    assert InLane(L(s, t), id, StatusIn(s.jobs[id], t));
  }

  /** With no expired keys a fetched job can always be loaded: `Lost` does not happen. */
  lemma DequeueMoves(s: Store, now: int, t: JobType)
    requires Inv(s) && P(s, t) != []
    ensures var id := P(s, t)[|P(s, t)| - 1];
            && id in s.jobs && s.jobs[id].id == id && s.jobs[id].jobType == t
            && Dequeue(s, now, t).1 == Got(s.jobs[id].(status := Processing, updatedAt := now))
            && Moved(s, Dequeue(s, now, t).0, s.jobs[id].(status := Processing, updatedAt := now),
                     Pending, Processing, now)
  {
    hide Inv, Moved, Dequeue;
    var id := P(s, t)[|P(s, t)| - 1];
    PlaceFacts(s, t, id, Pending);
    FetchMoves(s, now, t, id);
  }

  lemma FetchMoves(s: Store, now: int, t: JobType, id: nat)
    requires P(s, t) != [] && id == P(s, t)[|P(s, t)| - 1]
    requires id in s.jobs && s.jobs[id].id == id && s.jobs[id].jobType == t && s.jobs[id].status == Pending
    requires AttemptsInBounds(s.jobs[id])
    ensures var job := s.jobs[id].(status := Processing, updatedAt := now);
            Dequeue(s, now, t).1 == Got(job) && Moved(s, Dequeue(s, now, t).0, job, Pending, Processing, now)
  {
  }

  /** A job that is being processed, held as it is stored. */
  ghost predicate Held(s: Store, job: Job) {
    job.id in s.jobs && s.jobs[job.id] == job && job.status == Processing
  }

  lemma PutBackMoves(s: Store, t: JobType, job: Job)
    requires Held(s, job) && job.jobType == t && AttemptsInBounds(job)
    ensures Moved(s, PutBack(s, t, job), job.(status := Pending), Processing, Pending, 0)
  {
  }

  lemma CompleteMoves(s: Store, now: int, job: Job)
    requires Held(s, job) && AttemptsInBounds(job)
    ensures Moved(s, Complete(s, now, job), job.(status := Completed, updatedAt := now), Processing, Completed, 0)
  {
  }

  lemma FailMoves(s: Store, now: int, job: Job, message: string)
    requires Held(s, job) && AttemptsInBounds(job)
    ensures var j := FailedJob(job, now, message);
            && j.status in {Pending, Dead} && j.id == job.id && j.jobType == job.jobType
            && Moved(s, Fail(s, now, job, message), j, Processing, j.status, now)
  {
    hide NextRun;
  }

  /** Recovery only ever re-queues: its dead-letter branch is not reachable. */
  lemma RecoverOneMoves(s: Store, now: int, t: JobType, id: nat)
    requires Inv(s) && id in R(s, t)
    ensures id in s.jobs && s.jobs[id].attempts < s.jobs[id].maxAttempts && s.jobs[id].id == id
              && s.jobs[id].jobType == t
    ensures Moved(s, RecoverOne(s, now, t, id), s.jobs[id].(status := Pending, updatedAt := now),
                  Processing, Pending, 0)
  {
    hide Inv, Moved, RecoverOne;
    PlaceFacts(s, t, id, Processing);
    StuckMoves(s, now, t, id);
  }

  /** Outside the invariant, a stuck job without attempts left is declared dead: its record and
      its place say so, and it waits nowhere. */
  lemma RecoverOneGivesUp(s: Store, now: int, t: JobType, id: nat)
    requires id in s.jobs && s.jobs[id].id == id && s.jobs[id].attempts >= s.jobs[id].maxAttempts
    ensures var s', j := RecoverOne(s, now, t, id), s.jobs[id];
            && s'.jobs == s.jobs[id := Job(id, j.jobType, j.workspace, j.reference, Dead, j.attempts, j.maxAttempts,
                                           "recovered from stuck state, max attempts exceeded", j.metadata,
                                           j.createdAt, now, j.nextRunAt)]
            && P(s', t) == P(s, t) && R(s', t) == R(s, t) - {id} && D(s', t) == D(s, t)[id := now]
            && L(s', Other(t)) == L(s, Other(t))
  {
  }

  lemma StuckMoves(s: Store, now: int, t: JobType, id: nat)
    requires id in s.jobs && s.jobs[id].id == id && s.jobs[id].jobType == t && s.jobs[id].status == Processing
    requires AttemptsInBounds(s.jobs[id])
    ensures Moved(s, RecoverOne(s, now, t, id), s.jobs[id].(status := Pending, updatedAt := now),
                  Processing, Pending, 0)
  {
  }

  lemma RequeueDeadMoves(s: Store, now: int, t: JobType, id: nat)
    requires Inv(s) && CanRequeue(s, id) && s.jobs[id].jobType == t
    ensures s.jobs[id].id == id && s.jobs[id].attempts == s.jobs[id].maxAttempts
    ensures Moved(s, RequeueDead(s, now, t, id),
                  Revived(s.jobs[id], now), Dead, Pending, 0)
  {
    hide Inv, Moved, RequeueDead;
    Facts(s, id);
    RequeueMoves(s, now, t, id);
  }

  lemma RequeueMoves(s: Store, now: int, t: JobType, id: nat)
    requires CanRequeue(s, id) && s.jobs[id].jobType == t && s.jobs[id].id == id && AttemptsInBounds(s.jobs[id])
    ensures Moved(s, RequeueDead(s, now, t, id),
                  Revived(s.jobs[id], now), Dead, Pending, 0)
  {
  }
}
