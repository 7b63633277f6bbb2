/** Over whole runs: the order in which jobs are handed out, and the dead-letter counter. */
module HandOut {
  import opened Slices
  import opened QueueState
  import opened QueueInvariant
  import opened QueueOperations
  import opened QueueBulk
  import opened Workers
  import opened Runs
  import Queue

  // ----- no overtaking -----

  /** The jobs of type t fetched in a run, in order. */
  ghost function HandedOut(cfg: Config, sys: System, es: seq<Event>, t: JobType): seq<nat> {
    if es == [] then []
    else
      var before, e := Exec(cfg, sys, es[..|es| - 1]), es[|es| - 1];
      HandedOut(cfg, sys, es[..|es| - 1], t)
      + if e == Fetch(t) && P(before.store, t) != [] then [P(before.store, t)[|P(before.store, t)| - 1]] else []
  }

  ghost predicate TakesOne(sys: System, e: Event, t: JobType) {
    e == Fetch(t) && P(sys.store, t) != []
  }

  ghost predicate EndsWith(l: seq<nat>, tail: seq<nat>) {
    |tail| <= |l| && l[|l| - |tail|..] == tail
  }

  /** A fetch takes the right end of its list; every other step only adds at the left end. */
  ghost predicate ListStep(l: seq<nat>, l': seq<nat>, takes: bool) {
    if takes then l != [] && l' == l[..|l| - 1] else EndsWith(l', l)
  }

  lemma AddsAtLeft(l: seq<nat>, front: seq<nat>)
    ensures ListStep(l, front + l, false)
  {
  }

  lemma SubmitList(s: Store, now: int, u: JobType, workspace: string, reference: string,
                   metadata: map<string, string>, max: nat, t: JobType)
    ensures ListStep(P(s, t), P(Enqueue(s, now, u, workspace, reference, metadata, max), t), false)
  {
    AddsAtLeft(P(s, t), [s.idCounter + 1]);
    AddsAtLeft(P(s, t), []);
    assert [] + P(s, t) == P(s, t);
  }

  lemma FetchList(s: Store, w: Worker, now: int, u: JobType, t: JobType)
    ensures ListStep(P(s, t), P(FetchJob(s, w, now, u).0, t), u == t && P(s, t) != [])
  {
    hide ListStep;
    SameList(P(s, t));
    FetchedList(s, now, u, t);
    if u == t && P(s, t) != [] {
      TakesLast(P(s, t));
    }
  }

  lemma TakesLast(l: seq<nat>)
    requires l != []
    ensures ListStep(l, l[..|l| - 1], true)
  {
  }

  lemma FetchedList(s: Store, now: int, u: JobType, t: JobType)
    ensures P(Dequeue(s, now, u).0, t) == if u == t && P(s, t) != [] then P(s, t)[..|P(s, t)| - 1] else P(s, t)
  {
  }

  lemma DecideList(s: Store, w: Worker, now: int, u: JobType, t: JobType)
    requires w.dispatcher.Holding?
    ensures ListStep(P(s, t), P(DecideJob(s, w, now, u).0, t), false)
  {
    AddsAtLeft(P(s, t), [w.dispatcher.job.id]);
    AddsAtLeft(P(s, t), []);
    assert [] + P(s, t) == P(s, t);
  }

  lemma FinishList(s: Store, w: Worker, now: int, id: nat, outcome: Outcome, t: JobType)
    requires id in w.running
    ensures ListStep(P(s, t), P(FinishJob(s, w, now, id, outcome).0, t), false)
  {
    hide NextRun;
    AddsAtLeft(P(s, t), [w.running[id].id]);
    AddsAtLeft(P(s, t), []);
    assert [] + P(s, t) == P(s, t);
  }

  lemma RequeueList(s: Store, now: int, u: JobType, id: nat, t: JobType)
    ensures ListStep(P(s, t), P(RequeueDead(s, now, u, id), t), false)
  {
    AddsAtLeft(P(s, t), [id]);
    AddsAtLeft(P(s, t), []);
    assert [] + P(s, t) == P(s, t);
  }

  lemma DrainedList(s: Store, s': Store, u: JobType, ids: seq<nat>, from: Status, t: JobType)
    requires Drained(s, s', u, ids, from)
    ensures ListStep(P(s, t), P(s', t), false)
  {
    AddsAtLeft(P(s, t), Reverse(ids));
    AddsAtLeft(P(s, t), []);
    assert [] + P(s, t) == P(s, t);
    assert t == u || t == Other(u);
  }

  lemma StepList(cfg: Config, sys: System, e: Event, t: JobType)
    requires SysInv(cfg, sys) && Enabled(cfg, sys, e)
    ensures ListStep(P(sys.store, t), P(Next(cfg, sys, e).store, t), TakesOne(sys, e, t))
  {
    hide SysInv, Inv, ListStep, Drained, Enqueue, FetchJob, DecideJob, FinishJob, RequeueDead, RequeueAll, Recover;
    WorkerFacts(cfg, sys, t);
    match e
    case Submit(u, workspace, reference, metadata) =>
        SubmitList(sys.store, sys.now, u, workspace, reference, metadata, cfg.maxAttempts, t);
    case Fetch(u) => FetchList(sys.store, W(sys, u), sys.now, u, t);
    case Decide(u) => DecideList(sys.store, W(sys, u), sys.now, u, t);
    case Finish(u, id, outcome) => FinishList(sys.store, W(sys, u), sys.now, id, outcome, t);
    case Requeue(u, id) => RequeueList(sys.store, sys.now, u, id, t);
    case RequeueMany(u, ids, scope) =>
      RequeueAllDrains(sys.store, sys.now, u, ids, scope);
      DrainedList(sys.store, RequeueAll(sys.store, sys.now, u, ids, scope), u,
          Selected(sys.store, ids, scope), Dead, t);
    case RecoverStuck(u, ids) =>
      RecoverDrains(sys.store, sys.now, u, ids);
      DrainedList(sys.store, Recover(sys.store, sys.now, u, ids), u, ids, Processing, t);
    case Pass(_) => SameList(P(sys.store, t));
    case Acquire(_) => SameList(P(sys.store, t));
    case Release(_) => SameList(P(sys.store, t));
    case Crash => SameList(P(sys.store, t));
    case Serve => SameList(P(sys.store, t));
  }

  lemma SameList(l: seq<nat>)
    ensures ListStep(l, l, false)
  {
    AddsAtLeft(l, []);
    assert [] + l == l;
  }

  /** Of a list l0, the last n entries have been handed out, right end first; what is left
      of it is still the right part of the list l. */
  ghost predicate HandedOutFrom(l0: seq<nat>, l: seq<nat>, out: seq<nat>) {
    if |out| <= |l0| then out == Reverse(l0)[..|out|] && EndsWith(l, l0[..|l0| - |out|])
    else out[..|l0|] == Reverse(l0)
  }

  lemma HandOutStep(l0: seq<nat>, l: seq<nat>, l': seq<nat>, out: seq<nat>, takes: bool)
    requires HandedOutFrom(l0, l, out) && ListStep(l, l', takes)
    ensures HandedOutFrom(l0, l', if takes then out + [l[|l| - 1]] else out)
  {
    if |out| <= |l0| {
      var rest := l0[..|l0| - |out|];
      if !takes {
        assert l'[|l'| - |rest|..] == l'[|l'| - |l|..][|l| - |rest|..];
      } else if |out| < |l0| {
        LastHandedOut(l0, l, l', out);
      }
    } else if takes {
      assert (out + [l[|l| - 1]])[..|l0|] == out[..|l0|];
    }
  }

  lemma LastHandedOut(l0: seq<nat>, l: seq<nat>, l': seq<nat>, out: seq<nat>)
    requires |out| < |l0| && HandedOutFrom(l0, l, out) && ListStep(l, l', true)
    ensures HandedOutFrom(l0, l', out + [l[|l| - 1]])
  {
    var rest := l0[..|l0| - |out|];
    assert rest[..|rest| - 1] == l0[..|l0| - |out| - 1];
    assert l'[|l| - |rest|..] == l[|l| - |rest|..][..|rest| - 1];
    assert l[|l| - 1] == l[|l| - |rest|..][|rest| - 1] == l0[|l0| - |out| - 1] == Reverse(l0)[|out|];
    assert Reverse(l0)[..|out| + 1] == Reverse(l0)[..|out|] + [Reverse(l0)[|out|]];
  }

  lemma {:induction false} HandOutRun(cfg: Config, sys: System, es: seq<Event>, t: JobType)
    requires Sensible(cfg) && SysInv(cfg, sys) && IsRun(cfg, sys, es)
    ensures HandedOutFrom(P(sys.store, t), P(Exec(cfg, sys, es).store, t), HandedOut(cfg, sys, es, t))
  {
    hide SysInv, Next, Enabled, ListStep, P;
    if es == [] {
      NothingHandedOut(P(sys.store, t));
    } else {
      var init, e := es[..|es| - 1], es[|es| - 1];
      var before := Exec(cfg, sys, init);
      HandOutRun(cfg, sys, init, t);
      RunKeeps(cfg, sys, init);
      StepList(cfg, before, e, t);
      HandOutStep(P(sys.store, t), P(before.store, t), P(Next(cfg, before, e).store, t),
          HandedOut(cfg, sys, init, t), TakesOne(before, e, t));
      assert HandedOut(cfg, sys, init, t) + [] == HandedOut(cfg, sys, init, t);
    }
  }

  lemma NothingHandedOut(l: seq<nat>)
    ensures HandedOutFrom(l, l, [])
  {
    assert l[..|l| - 0] == l && l[|l| - |l|..] == l;
  }

  /** No overtaking: the k-th job from the right end of a pending list is the k-th one handed
      out, whatever is enqueued, retried, put back, recovered or requeued in between. */
  lemma NoOvertaking(cfg: Config, sys: System, es: seq<Event>, t: JobType, k: nat)
    requires Sensible(cfg) && SysInv(cfg, sys) && IsRun(cfg, sys, es)
    requires k < |P(sys.store, t)| && k < |HandedOut(cfg, sys, es, t)|
    ensures HandedOut(cfg, sys, es, t)[k] == P(sys.store, t)[|P(sys.store, t)| - 1 - k]
  {
    hide SysInv;
    HandOutRun(cfg, sys, es, t);
    var l, out := P(sys.store, t), HandedOut(cfg, sys, es, t);
    if |out| <= |l| {
      assert out[k] == Reverse(l)[..|out|][k];
    } else {
      assert out[..|l|][k] == Reverse(l)[k];
    }
  }

  /** The pages of a queue show what will be handed out: entry k of the paged order, on
      whichever page it falls, is the (k+1)-th job handed out. */
  lemma PagesShowWhatIsHandedOut(cfg: Config, sys: System, es: seq<Event>, t: JobType, offset: nat, limit: nat, k: nat)
    requires Sensible(cfg) && SysInv(cfg, sys) && IsRun(cfg, sys, es)
    requires offset <= k < offset + limit && k < |P(sys.store, t)| && k < |HandedOut(cfg, sys, es, t)|
    ensures k - offset < |Queue.Page(sys.store, t, offset, limit)|
    ensures Queue.Page(sys.store, t, offset, limit)[k - offset] == HandedOut(cfg, sys, es, t)[k]
  {
    hide SysInv, IsRun, HandedOut;
    NoOvertaking(cfg, sys, es, t, k);
  }

  // ----- oldest first -----

  /** Both wait, and a is nearer to the right end, the end jobs are taken from. */
  ghost predicate Ahead(l: seq<nat>, a: nat, b: nat) {
    exists i, j :: 0 <= i < j < |l| && l[i] == b && l[j] == a
  }

  lemma ReversedAhead(ids: seq<nat>, rest: seq<nat>, x: nat, y: nat)
    requires x < y < |ids|
    ensures Ahead(Reverse(ids) + rest, ids[x], ids[y])
  {
    var l := Reverse(ids) + rest;
    assert l[|ids| - 1 - y] == ids[y] && l[|ids| - 1 - x] == ids[x];
  }

  /** The jobs a start-up recovers are handed out in the order in which they were once fetched,
      after what was already waiting. */
  lemma RecoveredOldestFirst(cfg: Config, sys: System, t: JobType, ids: seq<nat>, a: nat, b: nat)
    requires SysInv(cfg, sys) && Enabled(cfg, sys, RecoverStuck(t, ids)) && a in ids && b in ids
    requires a in R(sys.store, t) && b in R(sys.store, t) && R(sys.store, t)[a] < R(sys.store, t)[b]
    ensures Ahead(P(Next(cfg, sys, RecoverStuck(t, ids)).store, t), a, b)
    ensures EndsWith(P(Next(cfg, sys, RecoverStuck(t, ids)).store, t), P(sys.store, t))
  {
    hide SysInv, Inv, Recover, Ahead;
    StoreInv(cfg, sys);
    RecoverDrains(sys.store, sys.now, t, ids);
    var x, y :| 0 <= x < |ids| && 0 <= y < |ids| && ids[x] == a && ids[y] == b;
    ReversedAhead(ids, P(sys.store, t), x, y);
  }

  lemma {:induction false} SelectedOrder(s: Store, ids: seq<nat>, scope: Scope, x: nat, y: nat) returns (i: nat, j: nat)
    requires x < y < |ids| && InScope(s, ids[x], scope) && InScope(s, ids[y], scope)
    ensures var sel := Selected(s, ids, scope); i < j < |sel| && sel[i] == ids[x] && sel[j] == ids[y]
  {
    hide InScope, NoDuplicates;
    var init := ids[..|ids| - 1];
    if y == |ids| - 1 {
      SelectedAre(s, init, scope);
      assert init[x] in Selected(s, init, scope);
      i :| 0 <= i < |Selected(s, init, scope)| && Selected(s, init, scope)[i] == ids[x];
      j := |Selected(s, init, scope)|;
    } else {
      i, j := SelectedOrder(s, init, scope, x, y);
    }
  }

  /** Of the dead jobs requeued together, the one that died first is handed out first. */
  lemma RequeuedOldestFirst(cfg: Config, sys: System, t: JobType, ids: seq<nat>, scope: Scope, a: nat, b: nat)
    requires SysInv(cfg, sys) && Enabled(cfg, sys, RequeueMany(t, ids, scope))
    requires InScope(sys.store, a, scope) && InScope(sys.store, b, scope)
    requires a in D(sys.store, t) && b in D(sys.store, t) && D(sys.store, t)[a] < D(sys.store, t)[b]
    ensures Ahead(P(Next(cfg, sys, RequeueMany(t, ids, scope)).store, t), a, b)
  {
    hide SysInv, Inv, RequeueAll, Ahead, Selected;
    StoreInv(cfg, sys);
    RequeueAllDrains(sys.store, sys.now, t, ids, scope);
    var x, y :| 0 <= x < |ids| && 0 <= y < |ids| && ids[x] == a && ids[y] == b;
    var i, j := SelectedOrder(sys.store, ids, scope, x, y);
    ReversedAhead(Selected(sys.store, ids, scope), P(sys.store, t), i, j);
  }

  // ----- the dead-letter counter -----

  function DeadSize(s: Store): nat {
    |D(s, Diff)| + |D(s, Analyze)|
  }

  /** Successful dead-letter requeues of one step, and of a run. */
  function RequeuedBy(sys: System, e: Event): nat {
    match e
    case Requeue(t, id) => if CanRequeue(sys.store, id) then 1 else 0
    case RequeueMany(t, ids, scope) => Requeued(sys.store, sys.now, t, ids, scope)
    case _ => 0
  }

  function TotalRequeued(cfg: Config, sys: System, es: seq<Event>): nat {
    if es == [] then 0
    else TotalRequeued(cfg, sys, es[..|es| - 1]) + RequeuedBy(Exec(cfg, sys, es[..|es| - 1]), es[|es| - 1])
  }

  function Balance(s: Store): int {
    s.deadTotal - DeadSize(s)
  }

  lemma MovedDeadSize(s: Store, s': Store, j': Job, from: Status, to: Status, score: int)
    requires Inv(s) && Moved(s, s', j', from, to, score)
    ensures DeadSize(s') == DeadSize(s) + (if to == Dead then 1 else 0) - (if from == Dead then 1 else 0)
  {
    hide Inv;
    var t := j'.jobType;
    Facts(s, j'.id);
    assert InLane(L(s, t), j'.id, StatusIn(s.jobs[j'.id], t));
    SetKept(D(s, t), D(s', t), j'.id, score, from == Dead, to == Dead);
  }

  lemma DrainedDeadSize(s: Store, s': Store, t: JobType, ids: seq<nat>, from: Status)
    requires Drained(s, s', t, ids, from) && NoDuplicates(ids)
               && (from == Dead ==> forall id :: id in ids ==> id in D(s, t))
    ensures DeadSize(s') == DeadSize(s) - if from == Dead then |ids| else 0
  {
    if from == Dead {
      SnapshotSize(ids);
      assert (D(s, t) - Elements(ids)).Keys == D(s, t).Keys - Elements(ids);
      assert |D(s, t).Keys - Elements(ids)| == |D(s, t).Keys| - |Elements(ids)|;
    }
  }

  lemma FetchBalance(s: Store, w: Worker, now: int, t: JobType)
    ensures Balance(FetchJob(s, w, now, t).0) == Balance(s)
  {
  }

  lemma PutBackBalance(s: Store, t: JobType, job: Job)
    ensures Balance(PutBack(s, t, job)) == Balance(s)
  {
  }

  lemma FinishBalance(s: Store, now: int, job: Job, message: string)
    requires Inv(s) && Held(s, job) && AttemptsInBounds(job)
    ensures Balance(Complete(s, now, job)) == Balance(s)
    ensures Balance(Fail(s, now, job, message)) == Balance(s)
  {
    hide Inv, Moved, NextRun;
    CompleteMoves(s, now, job);
    FailMoves(s, now, job, message);
    var j := FailedJob(job, now, message);
    MovedDeadSize(s, Fail(s, now, job, message), j, Processing, j.status, now);
    FailCounts(s, now, job, message);
    MovedDeadSize(s, Complete(s, now, job), job.(status := Completed, updatedAt := now), Processing, Completed, 0);
  }

  lemma FailCounts(s: Store, now: int, job: Job, message: string)
    ensures Fail(s, now, job, message).deadTotal == s.deadTotal
              + if FailedJob(job, now, message).status == Dead then 1 else 0
    ensures Complete(s, now, job).deadTotal == s.deadTotal
  {
    hide NextRun;
  }

  lemma RequeueBalance(s: Store, now: int, t: JobType, id: nat)
    requires Inv(s) && (CanRequeue(s, id) ==> s.jobs[id].jobType == t)
    ensures Balance(RequeueDead(s, now, t, id)) == Balance(s) + if CanRequeue(s, id) then 1 else 0
  {
    hide Inv, Moved;
    if CanRequeue(s, id) {
      RequeueDeadMoves(s, now, t, id);
      MovedDeadSize(s, RequeueDead(s, now, t, id),
                    Revived(s.jobs[id], now), Dead, Pending, 0);
      RequeueCountsNothing(s, now, t, id);
    }
  }

  lemma ManyBalance(s: Store, now: int, t: JobType, ids: seq<nat>, scope: Scope)
    requires Inv(s) && FullSnapshot(D(s, t), ids)
    ensures Balance(RequeueAll(s, now, t, ids, scope)) == Balance(s) + Requeued(s, now, t, ids, scope)
  {
    hide Inv, RequeueAll, Requeued;
    RequeueAllDrains(s, now, t, ids, scope);
    SelectedAre(s, ids, scope);
    DrainedDeadSize(s, RequeueAll(s, now, t, ids, scope), t, Selected(s, ids, scope), Dead);
  }

  lemma RecoverBalance(s: Store, now: int, t: JobType, ids: seq<nat>)
    requires Inv(s) && NoDuplicates(ids) && forall id :: id in ids ==> id in R(s, t)
    ensures Balance(Recover(s, now, t, ids)) == Balance(s)
  {
    hide Inv, Recover;
    RecoverDrains(s, now, t, ids);
    DrainedDeadSize(s, Recover(s, now, t, ids), t, ids, Processing);
  }

  lemma ReportBalance(cfg: Config, sys: System, t: JobType, id: nat, outcome: Outcome)
    requires SysInv(cfg, sys) && Enabled(cfg, sys, Finish(t, id, outcome))
    ensures Balance(FinishJob(sys.store, W(sys, t), sys.now, id, outcome).0) == Balance(sys.store)
  {
    hide SysInv, Inv, WorkerInv, Complete, Fail, DeadSize, Balance;
    WorkerFacts(cfg, sys, t);
    RunningJob(sys.store, W(sys, t), t, sys.now, id);
    HeldIsKept(sys.store, W(sys, t), t, sys.now, W(sys, t).running[id]);
    FinishBalance(sys.store, sys.now, W(sys, t).running[id], if outcome.Failed? then outcome.message else "");
  }

  lemma StoreInv(cfg: Config, sys: System)
    requires SysInv(cfg, sys)
    ensures Inv(sys.store)
  {
  }

  lemma StepBalance(cfg: Config, sys: System, e: Event)
    requires SysInv(cfg, sys) && Enabled(cfg, sys, e)
    ensures Balance(Next(cfg, sys, e).store) == Balance(sys.store) + RequeuedBy(sys, e)
  {
    hide SysInv, Inv, PutBack, FinishJob, FetchJob, RequeueDead, RequeueAll, Requeued, Recover, Snapshot, DeadSize;
    hide Balance, CanRequeue, WorkerInv, SlotsAddUp, NoDuplicates;
    StoreInv(cfg, sys);
    match e
    case Fetch(t) => FetchBalance(sys.store, W(sys, t), sys.now, t);
    case Decide(t) => PutBackBalance(sys.store, t, W(sys, t).dispatcher.job);
    case Finish(t, id, outcome) => ReportBalance(cfg, sys, t, id, outcome);
    case Requeue(t, id) => RequeueBalance(sys.store, sys.now, t, id);
    case RequeueMany(t, ids, scope) => ManyBalance(sys.store, sys.now, t, ids, scope);
    case RecoverStuck(t, ids) =>
      SnapshotMembers(R(sys.store, t), sys.now - cfg.lockTimeout, ids);
      RecoverBalance(sys.store, sys.now, t, ids);
    case Submit(t, workspace, reference, metadata) =>
        SubmitBalance(sys.store, sys.now, t, workspace, reference, metadata, cfg.maxAttempts);
    case _ =>
  }

  lemma SubmitBalance(s: Store, now: int, t: JobType, workspace: string, reference: string,
                      metadata: map<string, string>, max: nat)
    ensures Balance(Enqueue(s, now, t, workspace, reference, metadata, max)) == Balance(s)
  {
  }

  lemma SnapshotMembers(m: map<nat, int>, cutoff: int, ids: seq<nat>)
    requires Snapshot(m, cutoff, ids)
    ensures NoDuplicates(ids) && forall id :: id in ids ==> id in m
  {
  }

  lemma {:induction false} RunBalance(cfg: Config, sys: System, es: seq<Event>)
    requires Sensible(cfg) && SysInv(cfg, sys) && IsRun(cfg, sys, es)
    ensures Balance(Exec(cfg, sys, es).store) == Balance(sys.store) + TotalRequeued(cfg, sys, es)
  {
    hide SysInv, Next, Enabled, Balance, RequeuedBy;
    if es != [] {
      RunBalance(cfg, sys, es[..|es| - 1]);
      RunKeeps(cfg, sys, es[..|es| - 1]);
      StepBalance(cfg, Exec(cfg, sys, es[..|es| - 1]), es[|es| - 1]);
    }
  }

  /** From start-up on, total_dead is the size of the dead sets plus all successful requeues. */
  lemma DeadTotalAccounted(cfg: Config, now: int, es: seq<Event>)
    requires Sensible(cfg) && IsRun(cfg, Initial(now), es)
    ensures var s := Exec(cfg, Initial(now), es).store;
            s.deadTotal == |D(s, Diff)| + |D(s, Analyze)| + TotalRequeued(cfg, Initial(now), es)
  {
    hide SysInv, Next;
    InitialInv(cfg, now);
    RunBalance(cfg, Initial(now), es);
  }
}
