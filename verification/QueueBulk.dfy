/** Start-up recovery and dead-letter requeueing over a whole snapshot, and when
    requeueing a single job is safe. */
module QueueBulk {
  import opened Slices
  import opened QueueState
  import opened QueueInvariant
  import opened QueueOperations

  function Elements(ids: seq<nat>): set<nat> {
    set id | id in ids
  }

  lemma {:induction false} SnapshotSize(ids: seq<nat>)
    requires NoDuplicates(ids)
    ensures |Elements(ids)| == |ids|
  {
    if ids != [] {
      var init, last := ids[..|ids| - 1], ids[|ids| - 1];
      SnapshotSize(init);
      assert ids == init + [last] && last !in init;
      assert Elements(ids) == Elements(init) + {last};
    }
  }

  /** The jobs `ids` have been moved, in order, from a set of lane t to the left end of its list. */
  ghost predicate Drained(s: Store, s': Store, t: JobType, ids: seq<nat>, from: Status) {
    && P(s', t) == Reverse(ids) + P(s, t)
    && R(s', t) == (if from == Processing then R(s, t) - Elements(ids) else R(s, t))
    && D(s', t) == (if from == Dead then D(s, t) - Elements(ids) else D(s, t))
    && L(s', Other(t)) == L(s, Other(t))
    && s'.idCounter == s.idCounter && s'.enqueued == s.enqueued
    && s'.completed == s.completed && s'.completedBy == s.completedBy && s'.deadTotal == s.deadTotal
    && (forall x :: x in s'.jobs <==> x in s.jobs)
    && (forall x :: x in s.jobs && x !in ids ==> s'.jobs[x] == s.jobs[x])
    && (forall x :: x in s.jobs && x in ids ==> s'.jobs[x].status == Pending && s'.jobs[x].jobType == s.jobs[x].jobType
                                                && s'.jobs[x].workspace == s.jobs[x].workspace)
  }

  lemma DrainNothing(s: Store, t: JobType, from: Status)
    ensures Drained(s, s, t, [], from)
  {
    assert Elements([]) == {};
    assert Reverse<nat>([]) == [];
    assert Reverse([]) + P(s, t) == P(s, t);
    assert R(s, t) - {} == R(s, t) && D(s, t) - {} == D(s, t);
  }

  lemma DrainOne(s: Store, s1: Store, s2: Store, t: JobType, ids: seq<nat>, id: nat, from: Status, j: Job)
    requires Drained(s, s1, t, ids, from) && from in {Processing, Dead} && id !in ids
    requires Moved(s1, s2, j, from, Pending, 0) && j.id == id && j.jobType == t && s2.deadTotal == s1.deadTotal
    requires id in s1.jobs && j.workspace == s1.jobs[id].workspace
    ensures Drained(s, s2, t, ids + [id], from)
  {
    ReverseSnoc(ids, id);
    assert Elements(ids + [id]) == Elements(ids) + {id};
    assert from == Processing ==> R(s, t) - Elements(ids) - {id} == R(s, t) - (Elements(ids) + {id});
    assert from == Dead ==> D(s, t) - Elements(ids) - {id} == D(s, t) - (Elements(ids) + {id});
  }

  /** Recovery moves exactly the listed jobs back to the pending list. */
  lemma {:induction false} RecoverDrains(s: Store, now: int, t: JobType, ids: seq<nat>)
    requires Inv(s) && NoDuplicates(ids) && forall id :: id in ids ==> id in R(s, t)
    ensures Inv(Recover(s, now, t, ids))
    ensures Drained(s, Recover(s, now, t, ids), t, ids, Processing)
    ensures forall x :: x in s.jobs && x in ids ==>
              x in Recover(s, now, t, ids).jobs
                  && Recover(s, now, t, ids).jobs[x] == s.jobs[x].(status := Pending, updatedAt := now)
    decreases |ids|, 0
  {
    hide Inv, Drained, RecoverOne;
    if ids == [] {
      DrainNothing(s, t, Processing);
    } else {
      assert ids == ids[..|ids| - 1] + [ids[|ids| - 1]];
      RecoverSnoc(s, now, t, ids[..|ids| - 1], ids[|ids| - 1]);
    }
  }

  lemma {:induction false} RecoverSnoc(s: Store, now: int, t: JobType, init: seq<nat>, id: nat)
    requires Inv(s) && NoDuplicates(init) && id !in init && id in R(s, t) && forall x :: x in init ==> x in R(s, t)
    ensures var s2 := RecoverOne(Recover(s, now, t, init), now, t, id);
            && Inv(s2) && Drained(s, s2, t, init + [id], Processing)
            && forall x :: x in s.jobs && x in init + [id] ==>
                x in s2.jobs && s2.jobs[x] == s.jobs[x].(status := Pending, updatedAt := now)
    decreases |init|, 1
  {
    hide Inv, WellKept, Moved, RecoverOne;
    RecoverDrains(s, now, t, init);
    var s1 := Recover(s, now, t, init);
    assert id in R(s1, t);
    RecoverOneMoves(s1, now, t, id);
    var s2, j := RecoverOne(s1, now, t, id), s1.jobs[id].(status := Pending, updatedAt := now);
    MoveKeeps(s1, s2, j, Processing, Pending, 0);
    MoveSetsJob(s1, s2, j, Processing, Pending, 0);
    RecoverCountsNothing(s1, now, t, id);
    DrainOne(s, s1, s2, t, init, id, Processing, j);
  }

  lemma MoveSetsJob(s: Store, s': Store, j: Job, from: Status, to: Status, score: int)
    requires Moved(s, s', j, from, to, score)
    ensures s'.jobs == s.jobs[j.id := j] && j.id in s.jobs
  {
  }

  lemma RecoverCountsNothing(s: Store, now: int, t: JobType, id: nat)
    ensures RecoverOne(s, now, t, id).deadTotal == s.deadTotal
  {
  }

  // ----- requeueing -----

  /** The listed jobs that are in scope, in order. */
  function Selected(s: Store, ids: seq<nat>, scope: Scope): seq<nat> {
    if ids == [] then []
    else Selected(s, ids[..|ids| - 1], scope) + if InScope(s, ids[|ids| - 1], scope) then [ids[|ids| - 1]] else []
  }

  lemma {:induction false} SelectedAre(s: Store, ids: seq<nat>, scope: Scope)
    ensures forall x :: x in Selected(s, ids, scope) <==> x in ids && InScope(s, x, scope)
    ensures NoDuplicates(ids) ==> NoDuplicates(Selected(s, ids, scope))
    ensures scope.AllWorkspaces? ==> Selected(s, ids, scope) == ids
  {
    if ids != [] {
      var init, last := ids[..|ids| - 1], ids[|ids| - 1];
      assert ids == init + [last];
      SelectedAre(s, init, scope);
      if NoDuplicates(ids) {
        assert last !in init;
      }
    }
  }

  /** Requeueing moves exactly the dead jobs in scope back to the pending list, and counts them. */
  lemma {:induction false} RequeueAllDrains(s: Store, now: int, t: JobType, ids: seq<nat>, scope: Scope)
    requires Inv(s) && NoDuplicates(ids) && forall id :: id in ids ==> id in D(s, t)
    ensures Inv(RequeueAll(s, now, t, ids, scope))
    ensures Drained(s, RequeueAll(s, now, t, ids, scope), t, Selected(s, ids, scope), Dead)
    ensures Requeued(s, now, t, ids, scope) == |Selected(s, ids, scope)|
    ensures forall x :: x in s.jobs && x in Selected(s, ids, scope) ==>
              x in RequeueAll(s, now, t, ids, scope).jobs
                  && RequeueAll(s, now, t, ids, scope).jobs[x] == Revived(s.jobs[x], now)
    decreases |ids|, 0
  {
    hide Drained, Inv;
    if ids == [] {
      DrainNothing(s, t, Dead);
    } else {
      RequeueSnoc(s, now, t, ids[..|ids| - 1], ids[|ids| - 1], scope);
    }
  }

  lemma {:induction false} RequeueSnoc(s: Store, now: int, t: JobType, init: seq<nat>, id: nat, scope: Scope)
    requires Inv(s) && NoDuplicates(init) && id !in init && id in D(s, t) && forall x :: x in init ==> x in D(s, t)
    ensures var s1 := RequeueAll(s, now, t, init, scope);
            var s2 := if InScope(s1, id, scope) then RequeueDead(s1, now, t, id) else s1;
            && Inv(s2) && CanRequeue(s1, id) && Requeued(s, now, t, init, scope) == |Selected(s, init, scope)|
            && (InScope(s1, id, scope) <==> InScope(s, id, scope))
            && Drained(s, s2, t, Selected(s, init, scope) + (if InScope(s, id, scope) then [id] else []), Dead)
            && forall x :: x in s.jobs && (x in Selected(s, init, scope) || (x == id && InScope(s, id, scope))) ==>
                 x in s2.jobs && s2.jobs[x] == Revived(s.jobs[x], now)
    decreases |init|, 1
  {
    hide Inv, WellKept, Moved, RequeueDead;
    RequeueAllDrains(s, now, t, init, scope);
    SelectedAre(s, init, scope);
    var s1 := RequeueAll(s, now, t, init, scope);
    assert id in D(s1, t);
    PlaceFacts(s1, t, id, Dead);
    PlaceFacts(s, t, id, Dead);
    assert s1.jobs[id] == s.jobs[id];
    if InScope(s1, id, scope) {
      RequeueDeadMoves(s1, now, t, id);
      var s2 := RequeueDead(s1, now, t, id);
      var j := Revived(s1.jobs[id], now);
      MoveKeeps(s1, s2, j, Dead, Pending, 0);
      MoveSetsJob(s1, s2, j, Dead, Pending, 0);
      RequeueCountsNothing(s1, now, t, id);
      DrainOne(s, s1, s2, t, Selected(s, init, scope), id, Dead, j);
    } else {
      assert Selected(s, init, scope) + [] == Selected(s, init, scope);
    }
  }

  lemma RequeueCountsNothing(s: Store, now: int, t: JobType, id: nat)
    ensures RequeueDead(s, now, t, id).deadTotal == s.deadTotal
  {
  }

  lemma WholeSnapshot(m: map<nat, int>, ids: seq<nat>)
    requires FullSnapshot(m, ids)
    ensures m - Elements(ids) == map[] && |ids| == |m|
  {
    SnapshotSize(ids);
    assert Elements(ids) == m.Keys;
    assert |m.Keys| == |m|;
    assert (m - m.Keys).Keys == {};
  }

  /** Requeueing everything empties the dead set of its type and reports its old size. */
  lemma RequeueAllEmpties(s: Store, now: int, t: JobType, ids: seq<nat>)
    requires Inv(s) && FullSnapshot(D(s, t), ids)
    ensures D(RequeueAll(s, now, t, ids, AllWorkspaces), t) == map[]
    ensures Requeued(s, now, t, ids, AllWorkspaces) == |D(s, t)|
  {
    hide Inv, RequeueAll, Requeued;
    RequeueAllDrains(s, now, t, ids, AllWorkspaces);
    SelectedAre(s, ids, AllWorkspaces);
    WholeSnapshot(D(s, t), ids);
  }

  /** Requeueing one workspace leaves the dead jobs of the others, and takes all of its own. */
  lemma RequeueWorkspaceTakesItsOwn(s: Store, now: int, t: JobType, ids: seq<nat>, workspace: string)
    requires Inv(s) && FullSnapshot(D(s, t), ids)
    ensures forall id :: id in D(RequeueAll(s, now, t, ids, Workspace(workspace)), t) <==>
                         id in D(s, t) && id in s.jobs && s.jobs[id].workspace != workspace
  {
    RequeueAllDrains(s, now, t, ids, Workspace(workspace));
    SelectedAre(s, ids, Workspace(workspace));
    forall id | id in D(s, t)
      ensures id in s.jobs
    {
      PlaceFacts(s, t, id, Dead);
    }
  }

  /** Requeueing under a job type keeps the invariant exactly when the job, if it is
      dead, is of that type: under the other type it would be dead and pending at once. */
  lemma RequeueSafeIffOwnType(s: Store, now: int, t: JobType, id: nat)
    requires Inv(s)
    ensures Inv(RequeueDead(s, now, t, id)) <==> (CanRequeue(s, id) ==> s.jobs[id].jobType == t)
  {
    if CanRequeue(s, id) {
      if s.jobs[id].jobType == t {
        RequeueDeadMoves(s, now, t, id);
        MoveKeeps(s, RequeueDead(s, now, t, id),
                  Revived(s.jobs[id], now), Dead, Pending, 0);
      } else {
        var s' := RequeueDead(s, now, t, id);
        var u := s.jobs[id].jobType;
        Facts(s, id);
        assert InLane(L(s, u), id, StatusIn(s.jobs[id], u));
        assert id in D(s', u) && s'.jobs[id].status == Pending;
        assert !InLane(L(s', u), id, StatusIn(s'.jobs[id], u));
        assert !WellKept(s', id);
      }
    }
  }
}
