/** Runs that do happen: a job is executed, and a crash right afterwards strands it. */
module SampleRuns {
  import opened QueueState
  import opened Workers
  import opened Runs

  function FirstJob(cfg: Config, now: int, st: Status): Job {
    Job(1, Diff, "", "", st, 0, cfg.maxAttempts, "", map[], now, now, now)
  }

  /** The store with the first job pending, and in processing. */
  function OnePending(cfg: Config, now: int): Store {
    Store(1, map[1 := FirstJob(cfg, now, Pending)], Lane([1], map[], map[]), NO_KEYS, 1, 0, 0, map[])
  }

  function OneProcessing(cfg: Config, now: int): Store {
    Store(1, map[1 := FirstJob(cfg, now, Processing)], Lane([], map[1 := now], map[]), NO_KEYS, 1, 0, 0, map[])
  }

  function Booted(now: int, s: Store, w: Worker): System {
    System(now, s, w, RESTED, Serving)
  }

  const RUNS: seq<Event> := [RecoverStuck(Diff, []), RecoverStuck(Analyze, []), Serve,
                             Submit(Diff, "", "", map[]), Acquire(Diff), Fetch(Diff), Decide(Diff)]

  const STRANDS: seq<Event> := RUNS + [Crash, RecoverStuck(Diff, []), RecoverStuck(Analyze, []), Serve]

  lemma Extend(cfg: Config, sys: System, es: seq<Event>, e: Event, mid: System)
    requires IsRun(cfg, sys, es) && Exec(cfg, sys, es) == mid && Enabled(cfg, mid, e)
    ensures IsRun(cfg, sys, es + [e]) && Exec(cfg, sys, es + [e]) == Next(cfg, mid, e)
  {
    assert (es + [e])[..|es + [e]| - 1] == es;
  }

  /** Boot with nothing to recover. */
  lemma Boot(cfg: Config, sys: System, es: seq<Event>, mid: System)
    requires IsRun(cfg, sys, es) && Exec(cfg, sys, es) == mid && mid.phase == Booting([Diff, Analyze])
    requires Snapshot(R(mid.store, Diff), mid.now - cfg.lockTimeout, [])
    requires Snapshot(R(mid.store, Analyze), mid.now - cfg.lockTimeout, [])
    ensures IsRun(cfg, sys, es + [RecoverStuck(Diff, []), RecoverStuck(Analyze, []), Serve])
    ensures Exec(cfg, sys, es + [RecoverStuck(Diff, []), RecoverStuck(Analyze, []), Serve]) == mid.(phase := Serving)
  {
    hide Exec, IsRun;
    Extend(cfg, sys, es, RecoverStuck(Diff, []), mid);
    var m1 := Next(cfg, mid, RecoverStuck(Diff, []));
    assert m1 == mid.(phase := Booting([Analyze]));
    Extend(cfg, sys, es + [RecoverStuck(Diff, [])], RecoverStuck(Analyze, []), m1);
    var m2 := Next(cfg, m1, RecoverStuck(Analyze, []));
    assert m2 == mid.(phase := Booting([]));
    Extend(cfg, sys, es + [RecoverStuck(Diff, [])] + [RecoverStuck(Analyze, [])], Serve, m2);
    assert es + [RecoverStuck(Diff, [])] + [RecoverStuck(Analyze, [])] + [Serve]
        == es + [RecoverStuck(Diff, []), RecoverStuck(Analyze, []), Serve];
  }

  /** A submitted job is fetched and runs. */
  lemma SubmittedJobRuns(cfg: Config, now: int)
    requires Sensible(cfg)
    ensures IsRun(cfg, Initial(now), RUNS)
    ensures Exec(cfg, Initial(now), RUNS)
         == Booted(now, OneProcessing(cfg, now), Worker(1, Idle, map[1 := FirstJob(cfg, now, Processing)], 0, {}))
  {
    hide Exec, IsRun;
    StartOfRun(cfg, Initial(now));
    Boot(cfg, Initial(now), [], Initial(now));
    var e3 := [] + [RecoverStuck(Diff, []), RecoverStuck(Analyze, []), Serve];
    Extend(cfg, Initial(now), e3, Submit(Diff, "", "", map[]), Booted(now, EMPTY, RESTED));
    Submitted(cfg, now);
    var e4 := e3 + [Submit(Diff, "", "", map[])];
    Extend(cfg, Initial(now), e4, Acquire(Diff), Booted(now, OnePending(cfg, now), RESTED));
    var e5 := e4 + [Acquire(Diff)];
    Extend(cfg, Initial(now), e5, Fetch(Diff), Booted(now, OnePending(cfg, now), AcquireSlot(RESTED)));
    Fetched(cfg, now);
    var e6 := e5 + [Fetch(Diff)];
    Extend(cfg, Initial(now), e6, Decide(Diff),
           Booted(now, OneProcessing(cfg, now), Worker(1, Holding(FirstJob(cfg, now, Processing)), map[], 0, {})));
    assert e6 + [Decide(Diff)] == RUNS;
  }

  lemma StartOfRun(cfg: Config, sys: System)
    ensures IsRun(cfg, sys, []) && Exec(cfg, sys, []) == sys
  {
  }

  lemma Submitted(cfg: Config, now: int)
    ensures Enqueue(EMPTY, now, Diff, "", "", map[], cfg.maxAttempts) == OnePending(cfg, now)
  {
  }

  lemma Fetched(cfg: Config, now: int)
    ensures Dequeue(OnePending(cfg, now), now, Diff) == (OneProcessing(cfg, now), Got(FirstJob(cfg, now, Processing)))
  {
    var s := OnePending(cfg, now);
    assert [1][..0] == [];
    assert s.jobs[1 := FirstJob(cfg, now, Processing)] == map[1 := FirstJob(cfg, now, Processing)];
    assert R(s, Diff)[1 := now] == map[1 := now];
  }

  /** A crash while it runs, and an immediate restart, leave the job in the processing
      set of a system that serves again, pending nowhere and running nowhere. */
  lemma CrashStrandsJob(cfg: Config, now: int)
    requires Sensible(cfg)
    ensures IsRun(cfg, Initial(now), STRANDS)
    ensures Exec(cfg, Initial(now), STRANDS) == Booted(now, OneProcessing(cfg, now), RESTED.(orphans := {1}))
  {
    hide Exec, IsRun;
    SubmittedJobRuns(cfg, now);
    var running := Booted(now, OneProcessing(cfg, now),
        Worker(1, Idle, map[1 := FirstJob(cfg, now, Processing)], 0, {}));
    Extend(cfg, Initial(now), RUNS, Crash, running);
    var crashed := Next(cfg, running, Crash);
    assert crashed == System(now, OneProcessing(cfg, now), RESTED.(orphans := {1}), RESTED, Booting([Diff, Analyze]));
    Boot(cfg, Initial(now), RUNS + [Crash], crashed);
    assert RUNS + [Crash] + [RecoverStuck(Diff, []), RecoverStuck(Analyze, []), Serve] == STRANDS;
  }
}
