/** Polls of one package in a row: repeating a poll, and any sequence of polls. */
module PollerRuns {
  import opened Options
  import opened Poller

  // ----- repeating a poll -----

  predicate NewestFirst(listed: seq<Version>) {
    forall i, j :: 0 <= i < j < |listed| ==> listed[i].publishedAt >= listed[j].publishedAt
  }

  /** After a poll of a newest-first list in which nothing was skipped, whatever a poll of the
      same list would take up as newer is known. */
  lemma NewerIsKnown(s: Tables, listed: seq<Version>, io: Io, s1: Tables, io2: Io, v: Version)
    requires Inv(s) && NewestFirst(listed) && NothingSkipped(io) && (io.latestFails ==> s.releases == [])
    requires IsPoll(s, listed, io, s1) && !io2.latestFails && Offered(s1, listed, io2, v)
    ensures Has(s1.releases, v.name)
  {
    PollKeeps(s, listed, io, s1);
    assert forall i :: 0 <= i < |s.releases| ==> s1.releases[i] == s.releases[i];
    if s.releases == [] && s1.releases != [] {
      assert Offered(s, listed, io, AsVersion(s1.releases[0]));
      NewerIsAmongFirst(listed, AsVersion(s1.releases[0]), v);
    }
    assert Offered(s, listed, io, v);
    OfferedIsKnown(s, listed, io, s1, v);
  }

  lemma NewerIsAmongFirst(listed: seq<Version>, w: Version, v: Version)
    requires NewestFirst(listed) && w in FirstTwo(listed) && v in listed && w.publishedAt < v.publishedAt
    ensures v in FirstTwo(listed)
  {
    var k :| 0 <= k < |FirstTwo(listed)| && FirstTwo(listed)[k] == w;
    var i :| 0 <= i < |listed| && listed[i] == v;
    assert listed[k] == w;
    if i < 2 {
      assert FirstTwo(listed)[i] == v;
    }
  }

  /** Polling again with the same newest-first answer creates nothing. When the query for the
      latest release fails in the second poll, it creates nothing exactly if the first two
      versions are known. */
  lemma RepeatCreatesNothing(s: Tables, listed: seq<Version>, io: Io, s1: Tables, io2: Io, s2: Tables)
    requires Inv(s) && NewestFirst(listed) && NothingSkipped(io) && (io.latestFails ==> s.releases == [])
    requires IsPoll(s, listed, io, s1) && IsPoll(s1, listed, io2, s2)
    ensures !io2.latestFails ==> s2 == s1
    ensures io2.latestFails && NothingSkipped(io2) ==>
              (s2 == s1 <==> forall v :: v in FirstTwo(listed) ==> Has(s1.releases, v.name))
  {
    PollKeeps(s, listed, io, s1);
    PollIsIdleIff(s1, listed, io2, s2);
    if io2.latestFails {
      assert forall v :: Offered(s1, listed, io2, v) <==> v in FirstTwo(listed);
    } else {
      forall v | Offered(s1, listed, io2, v)
        ensures Has(s1.releases, v.name)
      {
        NewerIsKnown(s, listed, io, s1, io2, v);
      }
    }
  }

  predicate DistinctNames(listed: seq<Version>) {
    forall i, j :: 0 <= i < j < |listed| ==> listed[i].name != listed[j].name
  }

  function Newer(a: Version, b: Version): int {
    if a.publishedAt >= b.publishedAt then a.publishedAt else b.publishedAt
  }

  /** Exactly when repeating the first poll creates nothing, for a list in any order without
      duplicate versions: when nothing after the first two entries is newer than both, or the
      query for the latest release fails. */
  lemma RepeatOfFirstIff(listed: seq<Version>, io: Io, s1: Tables, io2: Io, s2: Tables)
    requires DistinctNames(listed) && |listed| >= 2 && NothingSkipped(io) && NothingSkipped(io2)
    requires IsPoll(NEW_PACKAGE, listed, io, s1) && IsPoll(s1, listed, io2, s2)
    ensures s2 == s1 <==>
              io2.latestFails || forall k :: 2 <= k < |listed| ==> listed[k].publishedAt <= Newer(listed[0], listed[1])
  {
    hide IsPoll;
    PollKeeps(NEW_PACKAGE, listed, io, s1);
    PollIsIdleIff(s1, listed, io2, s2);
    forall k | 0 <= k < |listed|
      ensures Has(s1.releases, listed[k].name) <==> k < 2
    {
      FirstPollAddsFirstTwo(listed, io, s1, listed[k].name);
      AmongFirstTwo(listed, k);
    }
    OfferedAgain(listed, io, s1, io2);
    if forall v :: Offered(s1, listed, io2, v) ==> Has(s1.releases, v.name) {
      forall k | 2 <= k < |listed|
        ensures io2.latestFails || listed[k].publishedAt <= Newer(listed[0], listed[1])
      {
        assert listed[k] in listed && !Has(s1.releases, listed[k].name);
        assert !Offered(s1, listed, io2, listed[k]);
      }
    }
  }

  /** What a second poll takes up, in terms of the list. */
  lemma OfferedAgain(listed: seq<Version>, io: Io, s1: Tables, io2: Io)
    requires DistinctNames(listed) && |listed| >= 2 && NothingSkipped(io) && IsPoll(NEW_PACKAGE, listed, io, s1)
    ensures forall v :: Offered(s1, listed, io2, v) <==>
              if io2.latestFails then v in FirstTwo(listed)
              else v in listed && v.publishedAt > Newer(listed[0], listed[1])
  {
    FirstTwoStored(listed, io, s1, 0);
    FirstTwoStored(listed, io, s1, 1);
    OnlyFirstTwo(listed, io, s1);
    assert FirstTwo(listed) == [listed[0], listed[1]];
  }

  lemma AmongFirstTwo(listed: seq<Version>, k: nat)
    requires DistinctNames(listed) && 2 <= |listed| && k < |listed|
    ensures (exists v :: v in FirstTwo(listed) && v.name == listed[k].name) <==> k < 2
  {
    assert FirstTwo(listed)[0] == listed[0] && FirstTwo(listed)[1] == listed[1];
  }

  lemma OnlyFirstTwo(listed: seq<Version>, io: Io, s1: Tables)
    requires IsPoll(NEW_PACKAGE, listed, io, s1)
    ensures forall i :: 0 <= i < |s1.releases| ==> AsVersion(s1.releases[i]) in FirstTwo(listed)
  {
    PollKeeps(NEW_PACKAGE, listed, io, s1);
    forall i | 0 <= i < |s1.releases|
      ensures AsVersion(s1.releases[i]) in FirstTwo(listed)
    {
      assert Offered(NEW_PACKAGE, listed, io, AsVersion(s1.releases[i]));
    }
  }

  lemma FirstTwoStored(listed: seq<Version>, io: Io, s1: Tables, k: nat)
    requires DistinctNames(listed) && |listed| >= 2 && k < 2 && NothingSkipped(io)
               && IsPoll(NEW_PACKAGE, listed, io, s1)
    ensures exists i :: 0 <= i < |s1.releases| && s1.releases[i] == Release(listed[k].name, listed[k].publishedAt)
  {
    FirstPollAddsFirstTwo(listed, io, s1, listed[k].name);
    OnlyFirstTwo(listed, io, s1);
    assert FirstTwo(listed)[k] == listed[k];
    var i :| 0 <= i < |s1.releases| && s1.releases[i].version == listed[k].name;
    assert AsVersion(s1.releases[i]) in FirstTwo(listed);
    assert s1.releases[i] == Release(listed[k].name, listed[k].publishedAt);
  }

  // ----- whole runs -----

  datatype Poll = Poll(listed: seq<Version>, io: Io)

  /** Tables before and after each of a sequence of polls of a package that starts new. */
  ghost predicate IsRun(states: seq<Tables>, polls: seq<Poll>) {
    && |states| == |polls| + 1 && states[0] == NEW_PACKAGE
    && forall k :: 0 <= k < |polls| ==> IsPoll(states[k], polls[k].listed, polls[k].io, states[k + 1])
  }

  /** In every run, whatever fails: no two releases of the package share a version, and no
      release has two jobs; nothing is ever taken back. */
  lemma {:induction false} RunKeeps(states: seq<Tables>, polls: seq<Poll>, k: nat)
    requires IsRun(states, polls) && k < |states|
    ensures Inv(states[k])
    ensures forall j :: k <= j < |states| ==>
              states[k].releases <= states[j].releases && states[k].jobs <= states[j].jobs
    decreases k
  {
    if k > 0 {
      RunKeeps(states, polls, k - 1);
      PollKeeps(states[k - 1], polls[k - 1].listed, polls[k - 1].io, states[k]);
    }
    RunGrows(states, polls, k, |states| - 1);
  }

  lemma {:induction false} RunGrows(states: seq<Tables>, polls: seq<Poll>, k: nat, last: nat)
    requires IsRun(states, polls) && k <= last < |states| && Inv(states[k])
    ensures Inv(states[last])
    ensures forall j :: k <= j <= last ==> states[k].releases <= states[j].releases && states[k].jobs <= states[j].jobs
    decreases last
  {
    hide Inv;
    if k < last {
      RunGrows(states, polls, k, last - 1);
      PollKeeps(states[last - 1], polls[last - 1].listed, polls[last - 1].io, states[last]);
    }
  }

  // ----- order -----

  /** In every run, whatever fails, each poll creates its releases and enqueues its diff jobs
      in the order of publish times. */
  lemma EachPollInTimeOrder(states: seq<Tables>, polls: seq<Poll>, k: nat)
    requires IsRun(states, polls) && k < |polls|
    ensures Inv(states[k + 1]) && AddedInTimeOrder(states[k + 1], |states[k].releases|, |states[k].jobs|)
  {
    RunKeeps(states, polls, k);
    PollAddsInTimeOrder(states[k], polls[k].listed, polls[k].io, states[k + 1]);
  }

  /** And the jobs of all polls together are in that order, unless the query for the latest
      release fails in a poll that then takes up an unknown version older than a known one. */
  lemma {:induction false} JobsInTimeOrder(states: seq<Tables>, polls: seq<Poll>, k: nat)
    requires IsRun(states, polls) && k < |states|
    requires forall i :: 0 <= i < k && polls[i].io.latestFails ==> FirstTwoFresh(states[i], polls[i].listed)
    ensures InTimeOrder(states[k].releases)
    ensures Inv(states[k]) && AddedInTimeOrder(states[k], 0, 0)
    decreases k
  {
    RunKeeps(states, polls, k);
    if k > 0 {
      JobsInTimeOrder(states, polls, k - 1);
      PollKeepsTimeOrder(states[k - 1], polls[k - 1].listed, polls[k - 1].io, states[k]);
    }
  }

  // ----- jobs -----

  /** The choices a poll leaves open: the latest release it found, and the sorted list. */
  datatype Choice = Choice(latest: Option<Release>, order: seq<Version>)

  ghost predicate IsRunBy(states: seq<Tables>, polls: seq<Poll>, cs: seq<Choice>) {
    && |cs| == |polls| && |states| == |polls| + 1 && states[0] == NEW_PACKAGE
    && forall k :: 0 <= k < |polls| ==>
         IsPollBy(states[k], polls[k].listed, polls[k].io, cs[k].latest, cs[k].order, states[k + 1])
  }

  lemma ChoiceOf(s: Tables, p: Poll, s': Tables) returns (c: Choice)
    requires IsPoll(s, p.listed, p.io, s')
    ensures IsPollBy(s, p.listed, p.io, c.latest, c.order, s')
  {
    hide IsPollBy;
    var latest: Option<Release>, order: seq<Version> :| IsPollBy(s, p.listed, p.io, latest, order, s');
    c := Choice(latest, order);
  }

  lemma {:induction false} FirstChoices(states: seq<Tables>, polls: seq<Poll>, n: nat) returns (cs: seq<Choice>)
    requires IsRun(states, polls) && n <= |polls|
    ensures |cs| == n
    ensures forall k :: 0 <= k < n ==>
              IsPollBy(states[k], polls[k].listed, polls[k].io, cs[k].latest, cs[k].order, states[k + 1])
    decreases n
  {
    hide IsPollBy, IsPoll;
    cs := [];
    if n > 0 {
      cs := FirstChoices(states, polls, n - 1);
      var c := ChoiceOf(states[n - 1], polls[n - 1], states[n]);
      cs := cs + [c];
    }
  }

  /** Every run makes some choices. */
  lemma ChoicesOf(states: seq<Tables>, polls: seq<Poll>) returns (cs: seq<Choice>)
    requires IsRun(states, polls)
    ensures IsRunBy(states, polls, cs)
  {
    hide IsPollBy, IsPoll;
    cs := FirstChoices(states, polls, |polls|);
  }

  /** In every run every release has exactly one job, in order, if and only if no poll creates
      a release whose job cannot be enqueued. Look-ups, queries and insertions may fail. */
  lemma {:induction false} OneJobPerReleaseIff(states: seq<Tables>, polls: seq<Poll>, cs: seq<Choice>, k: nat)
    requires IsRunBy(states, polls, cs) && k < |states|
    ensures |states[k].jobs| <= |states[k].releases|
    ensures |states[k].jobs| == |states[k].releases| <==>
              forall i :: 0 <= i < k ==> !EnqueueLost(states[i], cs[i].order, polls[i].io)
    ensures |states[k].jobs| == |states[k].releases| ==>
              forall i :: 0 <= i < |states[k].jobs| ==> states[k].jobs[i] == i
    decreases k
  {
    hide EnqueueLost, IsRunBy, IsPollBy, CreateAll, Inv;
    RunBySteps(states, polls, cs);
    if k > 0 {
      OneJobPerReleaseIff(states, polls, cs, k - 1);
      CreateAllQueuesIff(states[k - 1], cs[k - 1].order, polls[k - 1].io);
      RunKeeps(states, polls, k);
      AllHaveJobs(states[k]);
    }
  }

  lemma RunBySteps(states: seq<Tables>, polls: seq<Poll>, cs: seq<Choice>)
    requires IsRunBy(states, polls, cs)
    ensures IsRun(states, polls) && |cs| == |polls|
    ensures forall k :: 0 <= k < |polls| ==> states[k + 1] == CreateAll(states[k], cs[k].order, polls[k].io)
  {
    forall k | 0 <= k < |polls|
      ensures IsPoll(states[k], polls[k].listed, polls[k].io, states[k + 1])
    {
      assert IsPollBy(states[k], polls[k].listed, polls[k].io, cs[k].latest, cs[k].order, states[k + 1]);
    }
  }

  lemma AllHaveJobs(s: Tables)
    requires Inv(s)
    ensures |s.jobs| == |s.releases| ==> forall i :: 0 <= i < |s.jobs| ==> s.jobs[i] == i
  {
    forall i | 0 <= i < |s.jobs| == |s.releases|
      ensures s.jobs[i] == i
    {
      AtLeastIndex(s.jobs, i);
      AtMostIndex(s.jobs, i, |s.jobs|);
    }
  }

  /** In particular when every enqueue succeeds. */
  lemma OneJobPerRelease(states: seq<Tables>, polls: seq<Poll>, k: nat)
    requires IsRun(states, polls) && k < |states|
    requires forall i, j :: 0 <= i < k && 0 <= j < |polls[i].io.outcomes| ==> polls[i].io.outcomes[j] != EnqueueFailed
    ensures |states[k].jobs| == |states[k].releases|
    ensures forall i :: 0 <= i < |states[k].jobs| ==> states[k].jobs[i] == i
  {
    var cs := ChoicesOf(states, polls);
    OneJobPerReleaseIff(states, polls, cs, k);
  }

  lemma {:induction false} AtLeastIndex(jobs: seq<nat>, i: nat)
    requires i < |jobs| && forall k, l :: 0 <= k < l < |jobs| ==> jobs[k] < jobs[l]
    ensures jobs[i] >= i
  {
    if i > 0 {
      AtLeastIndex(jobs, i - 1);
    }
  }

  lemma {:induction false} AtMostIndex(jobs: seq<nat>, i: nat, n: nat)
    requires i < |jobs| == n && (forall k :: 0 <= k < |jobs| ==> jobs[k] < n)
    requires forall k, l :: 0 <= k < l < |jobs| ==> jobs[k] < jobs[l]
    ensures jobs[i] <= i
    decreases n - i
  {
    if i + 1 < n {
      AtMostIndex(jobs, i + 1, n);
    }
  }

  // ----- which versions are ever found -----

  ghost predicate OfferedAt(states: seq<Tables>, polls: seq<Poll>, i: nat, name: string)
    requires IsRun(states, polls) && i < |polls|
  {
    exists v :: Offered(states[i], polls[i].listed, polls[i].io, v) && v.name == name
  }

  /** In every run a version is known only if some poll was offered it; and every version
      offered is known afterwards, if no look-up or insertion fails. */
  lemma {:induction false} KnownIffOffered(states: seq<Tables>, polls: seq<Poll>, k: nat, name: string)
    requires IsRun(states, polls) && k < |states|
    ensures Has(states[k].releases, name) ==> exists i :: 0 <= i < k && OfferedAt(states, polls, i, name)
    ensures (forall i :: 0 <= i < k ==> NothingSkipped(polls[i].io))
              && (exists i :: 0 <= i < k && OfferedAt(states, polls, i, name))
            ==> Has(states[k].releases, name)
    decreases k
  {
    hide Offered, NothingSkipped, Has;
    if k == 0 {
      NothingKnown(name);
    } else {
      var s, s' := states[k - 1], states[k];
      KnownIffOffered(states, polls, k - 1, name);
      RunKeeps(states, polls, k - 1);
      PollKeeps(s, polls[k - 1].listed, polls[k - 1].io, s');
      if Has(s.releases, name) {
        HasMore(s.releases, s'.releases, name);
      } else if Has(s'.releases, name) {
        AddedWasOffered(s, polls[k - 1].listed, polls[k - 1].io, s', name);
        assert OfferedAt(states, polls, k - 1, name);
      } else if NothingSkipped(polls[k - 1].io) {
        PollAddsExactlyOffered(s, polls[k - 1].listed, polls[k - 1].io, s', name);
        assert !OfferedAt(states, polls, k - 1, name);
      }
    }
  }

  lemma NothingKnown(name: string)
    ensures !Has([], name)
  {
  }

  /** A poll does not take the name up: it is listed only as no newer than `latest`, or, when
      the query for the latest release fails, it is not one of the first two. */
  ghost predicate PassesOver(p: Poll, latest: Release, name: string) {
    if p.io.latestFails then forall v :: v in FirstTwo(p.listed) ==> v.name != name
    else forall v :: v in p.listed && v.name == name ==> v.publishedAt <= latest.publishedAt
  }

  /** What polls pass over stays out, however often it is listed. */
  lemma {:induction false} PassedOverStaysOut(states: seq<Tables>, polls: seq<Poll>, from: nat, k: nat,
      latest: Release, name: string)
    requires IsRun(states, polls) && from <= k < |states|
    requires IsLatest(states[from].releases, Some(latest)) && !Has(states[from].releases, name)
    requires forall i :: from <= i < k ==> PassesOver(polls[i], latest, name)
    ensures !Has(states[k].releases, name)
    decreases k
  {
    if from < k {
      PassedOverStaysOut(states, polls, from, k - 1, latest, name);
      RunKeeps(states, polls, from);
      RunKeeps(states, polls, k - 1);
      NotOffered(states[from], states[k - 1], polls[k - 1], latest, name);
      if Has(states[k].releases, name) {
        AddedWasOffered(states[k - 1], polls[k - 1].listed, polls[k - 1].io, states[k], name);
      }
    }
  }

  lemma NotOffered(s0: Tables, s: Tables, p: Poll, latest: Release, name: string)
    requires IsLatest(s0.releases, Some(latest)) && s0.releases <= s.releases && PassesOver(p, latest, name)
    ensures forall v :: Offered(s, p.listed, p.io, v) ==> v.name != name
  {
    var at :| 0 <= at < |s0.releases| && s0.releases[at] == latest;
    assert s.releases[at] == latest;
  }

  /** A version whose look-up or insertion fails in a poll that leaves a release at least as
      new in the table is absent, and no newer than the latest release, from then on. */
  lemma FailedInsertIsPassedOver(s: Tables, p: Poll, latest: Option<Release>, order: seq<Version>, s': Tables,
      j: nat, i: nat, now: Release)
    requires Inv(s) && IsPollBy(s, p.listed, p.io, latest, order, s')
    requires j < |order| && OutcomeOf(p.io, j) in {LookupFailed, CreateFailed} && !Has(s.releases, order[j].name)
    requires forall k :: 0 <= k < |order| && k != j ==> order[k].name != order[j].name
    requires i < |s'.releases| && s'.releases[i].publishedAt >= order[j].publishedAt && IsLatest(s'.releases, Some(now))
    ensures !Has(s'.releases, order[j].name) && order[j].publishedAt <= now.publishedAt
  {
    NeverInserted(s, order, p.io, order[j].name);
  }

  lemma {:induction false} NeverInserted(s: Tables, order: seq<Version>, io: Io, name: string)
    requires !Has(s.releases, name)
    requires forall k :: 0 <= k < |order| && order[k].name == name ==> OutcomeOf(io, k) in {LookupFailed, CreateFailed}
    ensures !Has(CreateAll(s, order, io).releases, name)
    decreases |order|
  {
    if order != [] {
      var n := |order| - 1;
      NeverInserted(s, order[..n], io, name);
      assert order[n].name == name ==> OutcomeOf(io, n) in {LookupFailed, CreateFailed};
    }
  }

  // ----- examples -----

  lemma CreateSnoc(s: Tables, order: seq<Version>, v: Version, io: Io, m: Tables)
    requires m == CreateAll(s, order, io)
    ensures CreateAll(s, order + [v], io) == CreateOne(m, v, OutcomeOf(io, |order|))
  {
    assert (order + [v])[..|order|] == order;
  }

  lemma OneCreated(s: Tables, v: Version, s': Tables)
    requires !Has(s.releases, v.name)
    requires s' == Tables(s.releases + [Release(v.name, v.publishedAt)], s.jobs + [|s.releases|])
    ensures CreateAll(s, [v], ALL_WELL) == s'
  {
    CreateSnoc(s, [], v, ALL_WELL, s);
    assert [] + [v] == [v];
  }

  lemma OnlyThirdIsWanted(a: Version, b: Version, c: Version, l: Release)
    requires !Wanted(a, l) && !Wanted(b, l) && Wanted(c, l)
    ensures After([a, b, c], l) == [c]
  {
    assert After([a], l) == [] by {
      assert [a][..0] == [];
    }
    assert After([a, b], l) == [] by {
      assert [a, b][..1] == [a];
    }
    assert [a, b, c][..2] == [a, b];
  }

  const OLDEST_FIRST := [Version("1", 1), Version("2", 2), Version("3", 3)]

  /** The order matters for the first poll: here the repeat creates the newest version. */
  lemma RepeatOfUnorderedListCreates(s1: Tables, s2: Tables)
    requires s1 == Tables([Release("1", 1), Release("2", 2)], [0, 1])
    requires s2 == Tables([Release("1", 1), Release("2", 2), Release("3", 3)], [0, 1, 2])
    ensures IsPoll(NEW_PACKAGE, OLDEST_FIRST, ALL_WELL, s1) && IsPoll(s1, OLDEST_FIRST, ALL_WELL, s2)
  {
    UnorderedFirst(s1);
    UnorderedSecond(s1, s2);
  }

  lemma UnorderedFirst(s1: Tables)
    requires s1 == Tables([Release("1", 1), Release("2", 2)], [0, 1])
    ensures IsPoll(NEW_PACKAGE, OLDEST_FIRST, ALL_WELL, s1)
  {
    var a, b := Version("1", 1), Version("2", 2);
    var one := Tables([Release("1", 1)], [0]);
    OneCreated(NEW_PACKAGE, a, one);
    CreateSnoc(NEW_PACKAGE, [a], b, ALL_WELL, one);
    assert [a] + [b] == [a, b];
    assert FirstTwo(OLDEST_FIRST) == [a, b];
    assert IsPollBy(NEW_PACKAGE, OLDEST_FIRST, ALL_WELL, None, [a, b], s1);
  }

  lemma UnorderedSecond(s1: Tables, s2: Tables)
    requires s1 == Tables([Release("1", 1), Release("2", 2)], [0, 1])
    requires s2 == Tables([Release("1", 1), Release("2", 2), Release("3", 3)], [0, 1, 2])
    ensures IsPoll(s1, OLDEST_FIRST, ALL_WELL, s2)
  {
    var c, l := Version("3", 3), Release("2", 2);
    OneCreated(s1, c, s2);
    OnlyThirdIsWanted(OLDEST_FIRST[0], OLDEST_FIRST[1], c, l);
    assert s1.releases[1] == l;
    assert IsPollBy(s1, OLDEST_FIRST, ALL_WELL, Some(l), [c], s2);
  }

  const TWO_VERSIONS := [Version("b", 2), Version("a", 1)]
  const ONLY_B := Tables([Release("b", 2)], [0])
  const B_THEN_A := Tables([Release("b", 2), Release("a", 1)], [0, 1])

  /** The insertion of the older of two versions fails; polls then pass it over, until one
      whose query for the latest release fails adds it after all, out of order. */
  lemma FailedInsertComesBackLate()
    ensures IsPoll(NEW_PACKAGE, TWO_VERSIONS, Io(false, [CreateFailed, Stored]), ONLY_B)
    ensures IsPoll(ONLY_B, TWO_VERSIONS, ALL_WELL, ONLY_B)
    ensures IsPoll(ONLY_B, TWO_VERSIONS, Io(true, []), B_THEN_A)
  {
    var a, b := Version("a", 1), Version("b", 2);
    assert FirstTwo(TWO_VERSIONS) == [b, a] && multiset([a, b]) == multiset([b, a]);
    FailsThenStores(a, b);
    assert IsPollBy(NEW_PACKAGE, TWO_VERSIONS, Io(false, [CreateFailed, Stored]), None, [a, b], ONLY_B);
    NeitherIsWanted(b, a, Release("b", 2));
    assert IsPollBy(ONLY_B, TWO_VERSIONS, ALL_WELL, Some(Release("b", 2)), [], ONLY_B) by {
      assert ONLY_B.releases[0] == Release("b", 2);
    }
    StoresThenSkips(a, b);
    assert IsPollBy(ONLY_B, TWO_VERSIONS, Io(true, []), None, [a, b], B_THEN_A);
  }

  lemma FailsThenStores(a: Version, b: Version)
    requires a == Version("a", 1) && b == Version("b", 2)
    ensures CreateAll(NEW_PACKAGE, [a, b], Io(false, [CreateFailed, Stored])) == ONLY_B
  {
    var io := Io(false, [CreateFailed, Stored]);
    CreateSnoc(NEW_PACKAGE, [], a, io, NEW_PACKAGE);
    assert [] + [a] == [a];
    CreateSnoc(NEW_PACKAGE, [a], b, io, NEW_PACKAGE);
    assert [a] + [b] == [a, b];
  }

  lemma StoresThenSkips(a: Version, b: Version)
    requires a == Version("a", 1) && b == Version("b", 2)
    ensures CreateAll(ONLY_B, [a, b], Io(true, [])) == B_THEN_A
  {
    var io := Io(true, []);
    CreateSnoc(ONLY_B, [], a, io, ONLY_B);
    CreateSnoc(ONLY_B, [a], b, io, CreateAll(ONLY_B, [a], io));
    hide CreateAll;
    assert [] + [a] == [a] && [a] + [b] == [a, b];
    assert CreateOne(ONLY_B, a, Stored) == B_THEN_A;
    assert B_THEN_A.releases[0].version == "b";
    assert CreateOne(B_THEN_A, b, Stored) == B_THEN_A;
  }

  lemma NeitherIsWanted(a: Version, b: Version, l: Release)
    requires !Wanted(a, l) && !Wanted(b, l)
    ensures After([a, b], l) == []
  {
    assert After([a], l) == [] by {
      assert [a][..0] == [];
    }
    assert [a, b][..1] == [a];
  }
}
