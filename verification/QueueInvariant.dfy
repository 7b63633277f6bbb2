/** What every queue operation keeps: each issued job is in exactly one place, its
    status names that place, its attempts stay within bounds, and the counters add up. */
module QueueInvariant {
  import opened QueueState

  /** Job `id` is in the place that `st` names (Completed: in none) and in no other. */
  ghost predicate InLane(l: Lane, id: nat, st: Status) {
    && (id in l.pending <==> st == Pending)
    && (id in l.processing <==> st == Processing)
    && (id in l.dead <==> st == Dead)
  }

  /** A job's status, seen from the keys of type t. */
  function StatusIn(j: Job, t: JobType): Status {
    if t == j.jobType then j.status else Completed
  }

  /** Job `id` is stored where its type and status say, and nowhere else. */
  ghost predicate InPlace(s: Store, id: nat)
    requires id in s.jobs
  {
    forall t :: InLane(L(s, t), id, StatusIn(s.jobs[id], t))
  }

  ghost predicate AttemptsInBounds(j: Job) {
    && j.maxAttempts > 0
    && if j.status == Dead then j.attempts == j.maxAttempts else j.attempts < j.maxAttempts
  }

  ghost predicate WellKept(s: Store, id: nat)
    requires id in s.jobs
  {
    s.jobs[id].id == id && AttemptsInBounds(s.jobs[id]) && InPlace(s, id)
  }

  ghost predicate LaneClosed(l: Lane, jobs: set<nat>) {
    NoDuplicates(l.pending) && forall id :: id in l.pending || id in l.processing || id in l.dead ==> id in jobs
  }

  /** No key has expired, and nothing but issued jobs is queued; a list holds no job twice. */
  ghost predicate Closed(s: Store) {
    (forall id :: id in s.jobs <==> 1 <= id <= s.idCounter) && forall t :: LaneClosed(L(s, t), s.jobs.Keys)
  }

  function Size(l: Lane): nat {
    |l.pending| + |l.processing| + |l.dead|
  }

  function Live(s: Store): nat {
    Size(s.diff) + Size(s.analyze)
  }

  ghost function Sum(m: map<string, nat>): nat {
    if m == map[] then 0
    else
      var k :| k in m;
      m[k] + Sum(m - {k})
  }

  ghost predicate CountersAddUp(s: Store) {
    && s.enqueued == s.idCounter
    && s.enqueued == Live(s) + s.completed
    && Sum(s.completedBy) == s.completed
  }

  ghost predicate Inv(s: Store) {
    Closed(s) && (forall id :: id in s.jobs ==> WellKept(s, id)) && CountersAddUp(s)
  }

  lemma EmptyInv()
    ensures Inv(EMPTY)
  {
    assert Closed(EMPTY) by {
      assert forall t :: L(EMPTY, t) == NO_KEYS;
    }
    assert CountersAddUp(EMPTY) by {
      hide Closed;
    }
    hide Closed, CountersAddUp;
  }

  // ----- sizes and sums -----

  lemma SizeAdd(m: map<nat, int>, k: nat, v: int)
    ensures |m[k := v]| == if k in m then |m| else |m| + 1
  {
    assert m[k := v].Keys == m.Keys + {k};
  }

  lemma SizeRemove(m: map<nat, int>, k: nat)
    ensures |m - {k}| == if k in m then |m| - 1 else |m|
  {
    assert (m - {k}).Keys == m.Keys - {k};
  }

  lemma {:induction false} SumRemove(m: map<string, nat>, k: string)
    requires k in m
    ensures Sum(m) == m[k] + Sum(m - {k})
    decreases |m.Keys|
  {
    var p :| p in m && Sum(m) == m[p] + Sum(m - {p});
    if p != k {
      assert (m - {p}).Keys == m.Keys - {p} && (m - {k}).Keys == m.Keys - {k};
      SumRemove(m - {p}, k);
      SumRemove(m - {k}, p);
      assert m - {p} - {k} == m - {k} - {p};
    }
  }

  lemma SumIncrement(m: map<string, nat>, k: string)
    ensures Sum(m[k := (if k in m then m[k] else 0) + 1]) == Sum(m) + 1
  {
    var m' := m[k := (if k in m then m[k] else 0) + 1];
    SumRemove(m', k);
    assert m' - {k} == m - {k};
    if k in m {
      SumRemove(m, k);
    } else {
      assert m - {k} == m;
    }
  }

  // ----- moving one job -----

  ghost predicate OthersStayInLane(l: Lane, l': Lane, id: nat) {
    forall x :: x != id ==> (x in l'.pending <==> x in l.pending) && (x in l'.processing <==> x in l.processing)
                            && (x in l'.dead <==> x in l.dead)
  }

  ghost predicate OthersStay(s: Store, s': Store, id: nat) {
    && (forall x :: x != id ==> (x in s'.jobs <==> x in s.jobs) && (x in s.jobs ==> s'.jobs[x] == s.jobs[x]))
    && (forall t :: OthersStayInLane(L(s, t), L(s', t), id))
  }

  lemma OtherWellKept(s: Store, s': Store, id: nat, x: nat)
    requires x in s.jobs && WellKept(s, x) && OthersStay(s, s', id) && x != id
    ensures x in s'.jobs && WellKept(s', x)
  {
    forall t
      ensures InLane(L(s', t), x, StatusIn(s'.jobs[x], t))
    {
      assert InLane(L(s, t), x, StatusIn(s.jobs[x], t));
      assert OthersStayInLane(L(s, t), L(s', t), id);
    }
  }

  lemma OneMoved(s: Store, s': Store, id: nat)
    requires Closed(s) && forall x :: x in s.jobs ==> WellKept(s, x)
    requires OthersStay(s, s', id)
    requires id in s'.jobs && WellKept(s', id)
    requires forall t :: NoDuplicates(L(s', t).pending)
    requires (s'.idCounter == s.idCounter && id in s.jobs) || id == s'.idCounter == s.idCounter + 1
    ensures Closed(s') && forall x :: x in s'.jobs ==> WellKept(s', x)
  {
    forall x | x in s'.jobs
      ensures WellKept(s', x)
    {
      if x != id {
        OtherWellKept(s, s', id, x);
      }
    }
    hide WellKept, NoDuplicates;
    forall t
      ensures LaneClosed(L(s', t), s'.jobs.Keys)
    {
      assert LaneClosed(L(s, t), s.jobs.Keys);
      assert OthersStayInLane(L(s, t), L(s', t), id);
    }
  }
}
