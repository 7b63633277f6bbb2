/** New-release detection for one package: checkPackageForNewReleases of
    backend/internal/usecase/poller/poller.go over the tables it reads and writes. */
module Poller {
  import opened Options

  /** One version as a registry lists it. */
  datatype Version = Version(name: string, publishedAt: int)

  /** A row of the release table. Its id is its position in the table. */
  datatype Release = Release(version: string, publishedAt: int)

  /** The releases of the package, and the release ids of its diff jobs in the order of enqueuing. */
  datatype Tables = Tables(releases: seq<Release>, jobs: seq<nat>)

  const NEW_PACKAGE := Tables([], [])

  /** What happens to one version of the create loop. */
  datatype Outcome = Stored | LookupFailed | CreateFailed | EnqueueFailed

  /** What the database and the queue do during one poll: whether the query for the latest
      release fails, and what becomes of each version of the create loop. */
  datatype Io = Io(latestFails: bool, outcomes: seq<Outcome>)

  const ALL_WELL := Io(false, [])

  function OutcomeOf(io: Io, i: nat): Outcome {
    if i < |io.outcomes| then io.outcomes[i] else Stored
  }

  /** Every version of the create loop is looked up and, if absent, inserted. */
  predicate NothingSkipped(io: Io) {
    forall i :: 0 <= i < |io.outcomes| ==> io.outcomes[i] != LookupFailed && io.outcomes[i] != CreateFailed
  }

  // ----- one poll as a relation -----

  predicate Has(releases: seq<Release>, name: string) {
    exists i :: 0 <= i < |releases| && releases[i].version == name
  }

  /** ORDER BY published_at DESC LIMIT 1: some release with the greatest time. */
  ghost predicate IsLatest(releases: seq<Release>, r: Option<Release>) {
    match r
    case None => releases == []
    case Some(l) => l in releases && forall i :: 0 <= i < |releases| ==> releases[i].publishedAt <= l.publishedAt
  }

  predicate Wanted(v: Version, latest: Release) {
    v.publishedAt > latest.publishedAt && v.name != latest.version
  }

  function After(listed: seq<Version>, latest: Release): seq<Version> {
    if listed == [] then []
    else
      var n := |listed| - 1;
      After(listed[..n], latest) + if Wanted(listed[n], latest) then [listed[n]] else []
  }

  function FirstTwo(listed: seq<Version>): seq<Version> {
    if |listed| <= 2 then listed else listed[..2]
  }

  function Select(listed: seq<Version>, latest: Option<Release>): seq<Version> {
    match latest
    case None => FirstTwo(listed)
    case Some(l) => After(listed, l)
  }

  predicate Ascending(order: seq<Version>) {
    forall i, j :: 0 <= i < j < |order| ==> order[i].publishedAt <= order[j].publishedAt
  }

  /** What sort.Slice may make of s: times ascend, equal times in any order. */
  ghost predicate OldestFirst(order: seq<Version>, s: seq<Version>) {
    multiset(order) == multiset(s) && Ascending(order)
  }

  function CreateOne(s: Tables, v: Version, o: Outcome): Tables {
    if o == LookupFailed || Has(s.releases, v.name) || o == CreateFailed then s
    else Tables(s.releases + [Release(v.name, v.publishedAt)],
        s.jobs + if o == EnqueueFailed then [] else [|s.releases|])
  }

  function CreateAll(s: Tables, order: seq<Version>, io: Io): Tables {
    if order == [] then s
    else
      var n := |order| - 1;
      CreateOne(CreateAll(s, order[..n], io), order[n], OutcomeOf(io, n))
  }

  ghost predicate IsPollBy(s: Tables, listed: seq<Version>, io: Io, latest: Option<Release>, order: seq<Version>,
      s': Tables) {
    && (if io.latestFails then latest == None else IsLatest(s.releases, latest))
    && OldestFirst(order, Select(listed, latest))
    && s' == CreateAll(s, order, io)
  }

  /** s' may come out of a poll of s that finds `listed` at the registry. */
  ghost predicate IsPoll(s: Tables, listed: seq<Version>, io: Io, s': Tables) {
    exists latest, order :: IsPollBy(s, listed, io, latest, order, s')
  }

  // ----- the source's code -----

  class Poller {
    var releases: seq<Release>
    var jobs: seq<nat>

    constructor ()
      ensures State() == NEW_PACKAGE
    {
      releases, jobs := [], [];
    }

    function State(): Tables
      reads this
    {
      Tables(releases, jobs)
    }

    method FindLatestRelease() returns (r: Option<Release>)
      ensures IsLatest(releases, r)
    {
      if releases == [] {
        return None;
      }
      var best := 0;
      for i := 1 to |releases|
        invariant 0 <= best < i
        invariant forall j :: 0 <= j < i ==> releases[j].publishedAt <= releases[best].publishedAt
      {
        if releases[i].publishedAt > releases[best].publishedAt {
          best := i;
        }
      }
      r := Some(releases[best]);
    }

    method CheckPackageForNewReleases(listed: seq<Version>, io: Io)
      modifies this
      ensures IsPoll(old(State()), listed, io, State())
    {
      ghost var before := State();
      var latest: Option<Release> := None;
      if !io.latestFails {
        latest := FindLatestRelease();
      }
      var newVersions: seq<Version> := [];
      if latest.Some? {
        for i := 0 to |listed|
          invariant newVersions == After(listed[..i], latest.value)
        {
          assert listed[..i + 1][..i] == listed[..i];
          if listed[i].publishedAt > latest.value.publishedAt && listed[i].name != latest.value.version {
            newVersions := newVersions + [listed[i]];
          }
        }
        assert listed[..|listed|] == listed;
      } else {
        newVersions := listed[..if |listed| < 2 then |listed| else 2];
      }
      assert newVersions == Select(listed, latest);
      var order := SortOldestFirst(newVersions);
      CreateReleases(order, io);
      assert IsPollBy(before, listed, io, latest, order, State());
    }

    method CreateReleases(order: seq<Version>, io: Io)
      modifies this
      ensures State() == CreateAll(old(State()), order, io)
    {
      for i := 0 to |order|
        invariant State() == CreateAll(old(State()), order[..i], io)
      {
        assert order[..i + 1][..i] == order[..i];
        var o := OutcomeOf(io, i);
        if o == LookupFailed {
          continue;
        }
        if Has(releases, order[i].name) {
          continue;
        }
        if o == CreateFailed {
          continue;
        }
        releases := releases + [Release(order[i].name, order[i].publishedAt)];
        if o == EnqueueFailed {
          continue;
        }
        jobs := jobs + [|releases| - 1];
      }
      assert order[..|order|] == order;
    }
  }

  /** sort.Slice by publish time, as one of the orders it may produce. */
  method SortOldestFirst(s: seq<Version>) returns (order: seq<Version>)
    ensures OldestFirst(order, s)
  {
    order := [];
    assert OldestFirst(order, s[..0]);
    hide OldestFirst;
    for i := 0 to |s|
      invariant OldestFirst(order, s[..i])
    {
      var k := |order|;
      while k > 0 && order[k - 1].publishedAt > s[i].publishedAt
        invariant 0 <= k <= |order|
        invariant forall j :: k <= j < |order| ==> order[j].publishedAt > s[i].publishedAt
      {
        k := k - 1;
      }
      InsertAt(order, s[..i], k, s[i]);
      assert s[..i + 1] == s[..i] + [s[i]];
      order := order[..k] + [s[i]] + order[k..];
    }
    assert s[..|s|] == s;
  }

  lemma InsertAt(order: seq<Version>, s: seq<Version>, k: nat, v: Version)
    requires OldestFirst(order, s) && k <= |order|
    requires k > 0 ==> order[k - 1].publishedAt <= v.publishedAt
    requires forall j :: k <= j < |order| ==> order[j].publishedAt > v.publishedAt
    ensures OldestFirst(order[..k] + [v] + order[k..], s + [v])
  {
    SameContents(order, s, k, v);
    AscendingPieces(order, k, v);
    AscendingAround(order[..k], v, order[k..]);
  }

  lemma SameContents(order: seq<Version>, s: seq<Version>, k: nat, v: Version)
    requires multiset(order) == multiset(s) && k <= |order|
    ensures multiset(order[..k] + [v] + order[k..]) == multiset(s + [v])
  {
    assert order == order[..k] + order[k..];
  }

  lemma AscendingPieces(order: seq<Version>, k: nat, v: Version)
    requires Ascending(order) && k <= |order| && (k > 0 ==> order[k - 1].publishedAt <= v.publishedAt)
    ensures Ascending(order[..k]) && Ascending(order[k..])
    ensures forall i :: 0 <= i < k ==> order[..k][i].publishedAt <= v.publishedAt
  {
  }

  lemma AscendingAround(lo: seq<Version>, v: Version, hi: seq<Version>)
    requires Ascending(lo) && Ascending(hi)
    requires forall i :: 0 <= i < |lo| ==> lo[i].publishedAt <= v.publishedAt
    requires forall i :: 0 <= i < |hi| ==> v.publishedAt <= hi[i].publishedAt
    ensures Ascending(lo + [v] + hi)
  {
  }

  // ----- what every poll keeps -----

  predicate UniqueVersions(releases: seq<Release>) {
    forall i, j :: 0 <= i < j < |releases| ==> releases[i].version != releases[j].version
  }

  /** Each job is for a release of the table, and no release has two; they were enqueued
      in the order in which the releases were created. */
  predicate OneJobEach(s: Tables) {
    && (forall k :: 0 <= k < |s.jobs| ==> s.jobs[k] < |s.releases|)
    && (forall k, l :: 0 <= k < l < |s.jobs| ==> s.jobs[k] < s.jobs[l])
  }

  predicate Inv(s: Tables) {
    UniqueVersions(s.releases) && OneJobEach(s)
  }

  function AsVersion(r: Release): Version {
    Version(r.version, r.publishedAt)
  }

  /** The create loop keeps the invariant, only appends, and appends only what it was given. */
  lemma {:induction false} CreateAllKeeps(s: Tables, order: seq<Version>, io: Io)
    requires Inv(s)
    ensures var s' := CreateAll(s, order, io);
            && Inv(s') && s.releases <= s'.releases && s.jobs <= s'.jobs
            && (forall i :: |s.releases| <= i < |s'.releases| ==> AsVersion(s'.releases[i]) in order)
            && (forall k :: |s.jobs| <= k < |s'.jobs| ==> s'.jobs[k] >= |s.releases|)
    decreases |order|
  {
    if order != [] {
      var n := |order| - 1;
      CreateAllKeeps(s, order[..n], io);
      var m := CreateAll(s, order[..n], io);
      assert forall v :: v in order[..n] ==> v in order;
      assert order[n] in order;
      assert !Has(m.releases, order[n].name) ==>
          forall i :: 0 <= i < |m.releases| ==> m.releases[i].version != order[n].name;
    }
  }

  lemma HasMore(releases: seq<Release>, more: seq<Release>, name: string)
    requires releases <= more && Has(releases, name)
    ensures Has(more, name)
  {
    var i :| 0 <= i < |releases| && releases[i].version == name;
    assert more[i] == releases[i];
  }

  lemma HasPrefix(releases: seq<Release>, all: seq<Release>, i: nat)
    requires releases <= all && i < |all|
    ensures i < |releases| ==> Has(releases, all[i].version)
  {
    if i < |releases| {
      assert releases[i] == all[i];
    }
  }

  /** With nothing skipped, every version it was given is in the table afterwards; what was
      inserted under its name is at least as old as it. */
  lemma {:induction false} CreateAllKnows(s: Tables, order: seq<Version>, io: Io, v: Version) returns (k: nat)
    requires Inv(s) && NothingSkipped(io) && v in order
    ensures k < |CreateAll(s, order, io).releases| && CreateAll(s, order, io).releases[k].version == v.name
    ensures Ascending(order) && |s.releases| <= k ==> CreateAll(s, order, io).releases[k].publishedAt <= v.publishedAt
    decreases |order|
  {
    var n := |order| - 1;
    var m, s' := CreateAll(s, order[..n], io), CreateAll(s, order, io);
    CreateAllKeeps(s, order[..n], io);
    if v in order[..n] {
      k := CreateAllKnows(s, order[..n], io, v);
      assert s'.releases[k] == m.releases[k];
    } else {
      assert order[n] == v;
      if Has(m.releases, v.name) {
        k :| 0 <= k < |m.releases| && m.releases[k].version == v.name;
      } else {
        k := |m.releases|;
      }
    }
  }

  /** Known versions change nothing. */
  lemma {:induction false} CreateAllIdle(s: Tables, order: seq<Version>, io: Io)
    requires forall v :: v in order ==> Has(s.releases, v.name)
    ensures CreateAll(s, order, io) == s
    decreases |order|
  {
    if order != [] {
      var n := |order| - 1;
      assert order[n] in order;
      assert forall v :: v in order[..n] ==> v in order;
      CreateAllIdle(s, order[..n], io);
    }
  }

  lemma {:induction false} AfterMembers(listed: seq<Version>, latest: Release, v: Version)
    ensures v in After(listed, latest) <==> v in listed && Wanted(v, latest)
    decreases |listed|
  {
    if listed != [] {
      var n := |listed| - 1;
      AfterMembers(listed[..n], latest, v);
      assert listed == listed[..n] + [listed[n]];
    }
  }

  lemma SameMembers(order: seq<Version>, s: seq<Version>, v: Version)
    requires OldestFirst(order, s)
    ensures v in order <==> v in s
  {
    assert v in order <==> v in multiset(order);
    assert v in s <==> v in multiset(s);
  }

  // ----- which versions one poll adds -----

  /** What the branch at the top of the poll takes up: one of the first two when nothing is
      known of the package or the query for it fails, otherwise what is newer than all releases. */
  ghost predicate Offered(s: Tables, listed: seq<Version>, io: Io, v: Version) {
    if io.latestFails || s.releases == [] then v in FirstTwo(listed)
    else v in listed && forall i :: 0 <= i < |s.releases| ==> s.releases[i].publishedAt < v.publishedAt
  }

  lemma OrderIsOffer(s: Tables, listed: seq<Version>, io: Io, latest: Option<Release>, order: seq<Version>,
      s': Tables, v: Version)
    requires IsPollBy(s, listed, io, latest, order, s')
    ensures v in order ==> Offered(s, listed, io, v)
    ensures Offered(s, listed, io, v) ==> v in order || Has(s.releases, v.name)
  {
    SameMembers(order, Select(listed, latest), v);
    if latest.Some? {
      AfterMembers(listed, latest.value, v);
      var at :| 0 <= at < |s.releases| && s.releases[at] == latest.value;
      assert Offered(s, listed, io, v) && v.name == latest.value.version ==> Has(s.releases, v.name);
    }
  }

  /** Every poll, whatever fails in it, keeps versions unique and jobs one to a release, and
      changes nothing but the end of both tables; what it adds was offered. */
  lemma PollKeeps(s: Tables, listed: seq<Version>, io: Io, s': Tables)
    requires Inv(s) && IsPoll(s, listed, io, s')
    ensures Inv(s') && s.releases <= s'.releases && s.jobs <= s'.jobs
    ensures forall i :: |s.releases| <= i < |s'.releases| ==> Offered(s, listed, io, AsVersion(s'.releases[i]))
  {
    var latest: Option<Release>, order: seq<Version> :| IsPollBy(s, listed, io, latest, order, s');
    CreateAllKeeps(s, order, io);
    forall i | |s.releases| <= i < |s'.releases|
      ensures Offered(s, listed, io, AsVersion(s'.releases[i]))
    {
      OrderIsOffer(s, listed, io, latest, order, s', AsVersion(s'.releases[i]));
    }
  }

  lemma OfferedIsKnown(s: Tables, listed: seq<Version>, io: Io, s': Tables, v: Version)
    requires Inv(s) && NothingSkipped(io) && IsPoll(s, listed, io, s') && Offered(s, listed, io, v)
    ensures Has(s'.releases, v.name)
  {
    var latest: Option<Release>, order: seq<Version> :| IsPollBy(s, listed, io, latest, order, s');
    OrderIsOffer(s, listed, io, latest, order, s', v);
    if v in order {
      var k := CreateAllKnows(s, order, io, v);
    } else {
      CreateAllKeeps(s, order, io);
      HasMore(s.releases, s'.releases, v.name);
    }
  }

  /** Exactly which versions a poll adds in which every look-up and insertion succeeds: those
      offered. This covers both branches, and polls whose query for the latest release fails. */
  lemma PollAddsExactlyOffered(s: Tables, listed: seq<Version>, io: Io, s': Tables, name: string)
    requires Inv(s) && NothingSkipped(io) && IsPoll(s, listed, io, s') && !Has(s.releases, name)
    ensures Has(s'.releases, name) <==> exists v :: Offered(s, listed, io, v) && v.name == name
  {
    if Has(s'.releases, name) {
      AddedWasOffered(s, listed, io, s', name);
    }
    if v :| Offered(s, listed, io, v) && v.name == name {
      OfferedIsKnown(s, listed, io, s', v);
    }
  }

  lemma AddedWasOffered(s: Tables, listed: seq<Version>, io: Io, s': Tables, name: string)
    requires Inv(s) && IsPoll(s, listed, io, s') && Has(s'.releases, name)
    ensures Has(s.releases, name) || exists v :: Offered(s, listed, io, v) && v.name == name
  {
    PollKeeps(s, listed, io, s');
    var i :| 0 <= i < |s'.releases| && s'.releases[i].version == name;
    HasPrefix(s.releases, s'.releases, i);
    assert i >= |s.releases| ==> Offered(s, listed, io, AsVersion(s'.releases[i]));
  }

  /** A poll of a package with releases adds exactly what is listed as newer than the latest. */
  lemma PollAddsExactlyNewer(s: Tables, listed: seq<Version>, io: Io, s': Tables, latest: Release, name: string)
    requires Inv(s) && NothingSkipped(io) && !io.latestFails && IsPoll(s, listed, io, s')
    requires IsLatest(s.releases, Some(latest)) && !Has(s.releases, name)
    ensures Has(s'.releases, name) <==> exists v :: v in listed && v.name == name && v.publishedAt > latest.publishedAt
  {
    PollAddsExactlyOffered(s, listed, io, s', name);
    NewerThanLatest(s, listed, io, latest);
  }

  lemma NewerThanLatest(s: Tables, listed: seq<Version>, io: Io, latest: Release)
    requires !io.latestFails && IsLatest(s.releases, Some(latest))
    ensures forall v :: Offered(s, listed, io, v) <==> v in listed && v.publishedAt > latest.publishedAt
  {
    var at :| 0 <= at < |s.releases| && s.releases[at] == latest;
  }

  /** The first poll adds exactly the first two versions of the list. */
  lemma FirstPollAddsFirstTwo(listed: seq<Version>, io: Io, s': Tables, name: string)
    requires NothingSkipped(io) && IsPoll(NEW_PACKAGE, listed, io, s')
    ensures Has(s'.releases, name) <==> exists v :: v in FirstTwo(listed) && v.name == name
  {
    PollAddsExactlyOffered(NEW_PACKAGE, listed, io, s', name);
    assert forall v :: Offered(NEW_PACKAGE, listed, io, v) <==> v in FirstTwo(listed);
  }

  /** A poll that finds every offered version known adds nothing, whatever fails in it; and
      when no look-up or insertion fails, only such a poll adds nothing. */
  lemma PollIsIdleIff(s: Tables, listed: seq<Version>, io: Io, s': Tables)
    requires Inv(s) && IsPoll(s, listed, io, s')
    ensures (forall v :: Offered(s, listed, io, v) ==> Has(s.releases, v.name)) ==> s' == s
    ensures NothingSkipped(io) && s' == s ==> forall v :: Offered(s, listed, io, v) ==> Has(s.releases, v.name)
  {
    var latest: Option<Release>, order: seq<Version> :| IsPollBy(s, listed, io, latest, order, s');
    if forall v :: Offered(s, listed, io, v) ==> Has(s.releases, v.name) {
      forall v | v in order
        ensures Has(s.releases, v.name)
      {
        OrderIsOffer(s, listed, io, latest, order, s', v);
      }
      CreateAllIdle(s, order, io);
    }
    if NothingSkipped(io) && s' == s {
      forall v | Offered(s, listed, io, v)
        ensures Has(s.releases, v.name)
      {
        OfferedIsKnown(s, listed, io, s', v);
      }
    }
  }

  // ----- the order in which one poll adds them -----

  /** The table is in the order of publish times. */
  predicate InTimeOrder(releases: seq<Release>) {
    forall i, j :: 0 <= i < j < |releases| ==> releases[i].publishedAt <= releases[j].publishedAt
  }

  /** The rows and jobs from `from` and `first` on are in the order of publish times. */
  predicate AddedInTimeOrder(s: Tables, from: nat, first: nat)
    requires forall k :: 0 <= k < |s.jobs| ==> s.jobs[k] < |s.releases|
  {
    && (forall i, j :: from <= i < j < |s.releases| ==> s.releases[i].publishedAt <= s.releases[j].publishedAt)
    && (forall a, b :: first <= a < b < |s.jobs| ==>
        s.releases[s.jobs[a]].publishedAt <= s.releases[s.jobs[b]].publishedAt)
  }

  /** What a poll adds that is not known yet is nowhere older than a release there is. */
  predicate FirstTwoFresh(s: Tables, listed: seq<Version>) {
    forall v :: v in FirstTwo(listed) && !Has(s.releases, v.name) ==>
      forall i :: 0 <= i < |s.releases| ==> s.releases[i].publishedAt <= v.publishedAt
  }

  lemma {:induction false} CreateAllAscends(s: Tables, order: seq<Version>, io: Io)
    requires Inv(s) && Ascending(order)
    ensures forall i, j :: |s.releases| <= i < j < |CreateAll(s, order, io).releases| ==>
              CreateAll(s, order, io).releases[i].publishedAt <= CreateAll(s, order, io).releases[j].publishedAt
    decreases |order|
  {
    if order != [] {
      CreateAllAscends(s, order[..|order| - 1], io);
      CreateAllKeeps(s, order[..|order| - 1], io);
    }
  }

  /** Within every poll, whatever fails in it, releases are created and their diff jobs
      enqueued in the order of publish times. */
  lemma PollAddsInTimeOrder(s: Tables, listed: seq<Version>, io: Io, s': Tables)
    requires Inv(s) && IsPoll(s, listed, io, s')
    ensures Inv(s') && AddedInTimeOrder(s', |s.releases|, |s.jobs|)
  {
    var latest: Option<Release>, order: seq<Version> :| IsPollBy(s, listed, io, latest, order, s');
    CreateAllKeeps(s, order, io);
    CreateAllAscends(s, order, io);
  }

  /** The whole table stays in the order of publish times, unless the query for the latest
      release fails and one of the first two versions is unknown and older than a known one. */
  lemma PollKeepsTimeOrder(s: Tables, listed: seq<Version>, io: Io, s': Tables)
    requires Inv(s) && InTimeOrder(s.releases) && IsPoll(s, listed, io, s')
    requires io.latestFails ==> FirstTwoFresh(s, listed)
    ensures InTimeOrder(s'.releases)
  {
    PollKeeps(s, listed, io, s');
    PollAddsInTimeOrder(s, listed, io, s');
    forall i, j | 0 <= i < |s.releases| <= j < |s'.releases|
      ensures s'.releases[i].publishedAt <= s'.releases[j].publishedAt
    {
      assert Offered(s, listed, io, AsVersion(s'.releases[j]));
      NotAmongFirst(s.releases, s'.releases, j);
    }
  }

  lemma NotAmongFirst(releases: seq<Release>, all: seq<Release>, j: nat)
    requires UniqueVersions(all) && releases <= all && |releases| <= j < |all|
    ensures !Has(releases, all[j].version)
  {
    forall i | 0 <= i < |releases|
      ensures releases[i].version != all[j].version
    {
      assert all[i] == releases[i];
    }
  }

  /** With nothing skipped that is exactly when it does. */
  lemma PollKeepsTimeOrderIff(s: Tables, listed: seq<Version>, io: Io, s': Tables)
    requires Inv(s) && InTimeOrder(s.releases) && NothingSkipped(io) && IsPoll(s, listed, io, s')
    ensures InTimeOrder(s'.releases) <==> (io.latestFails ==> FirstTwoFresh(s, listed))
  {
    if io.latestFails && !FirstTwoFresh(s, listed) {
      var v, i :| v in FirstTwo(listed) && !Has(s.releases, v.name) && 0 <= i < |s.releases|
          && s.releases[i].publishedAt > v.publishedAt;
      OlderGoesLast(s, listed, io, s', v, i);
    } else {
      PollKeepsTimeOrder(s, listed, io, s');
    }
  }

  lemma OlderGoesLast(s: Tables, listed: seq<Version>, io: Io, s': Tables, v: Version, i: nat)
    requires Inv(s) && NothingSkipped(io) && io.latestFails && IsPoll(s, listed, io, s')
    requires v in FirstTwo(listed) && !Has(s.releases, v.name) && i < |s.releases|
               && s.releases[i].publishedAt > v.publishedAt
    ensures !InTimeOrder(s'.releases)
  {
    var latest: Option<Release>, order: seq<Version> :| IsPollBy(s, listed, io, latest, order, s');
    SameMembers(order, FirstTwo(listed), v);
    var k := CreateAllKnows(s, order, io, v);
    CreateAllKeeps(s, order, io);
    HasPrefix(s.releases, s'.releases, k);
    assert s'.releases[i] == s.releases[i];
  }

  // ----- jobs for releases -----

  /** Some release is created whose job cannot be enqueued. */
  predicate EnqueueLost(s: Tables, order: seq<Version>, io: Io) {
    exists i :: 0 <= i < |order| && OutcomeOf(io, i) == EnqueueFailed
        && !Has(CreateAll(s, order[..i], io).releases, order[i].name)
  }

  /** Exactly when each release the loop creates gets its job. */
  lemma {:induction false} CreateAllQueuesIff(s: Tables, order: seq<Version>, io: Io)
    ensures var s' := CreateAll(s, order, io);
            && |s'.jobs| - |s.jobs| <= |s'.releases| - |s.releases|
            && (|s'.jobs| - |s.jobs| == |s'.releases| - |s.releases| <==> !EnqueueLost(s, order, io))
    decreases |order|
  {
    if order != [] {
      var n := |order| - 1;
      CreateAllQueuesIff(s, order[..n], io);
      LostEarlier(s, order, io);
    }
  }

  lemma LostEarlier(s: Tables, order: seq<Version>, io: Io)
    requires order != []
    ensures var n := |order| - 1;
            EnqueueLost(s, order, io) <==>
            EnqueueLost(s, order[..n], io)
            || (OutcomeOf(io, n) == EnqueueFailed && !Has(CreateAll(s, order[..n], io).releases, order[n].name))
  {
    var n := |order| - 1;
    assert forall i :: 0 <= i < n ==> order[..n][..i] == order[..i];
    if EnqueueLost(s, order, io) {
      var i :| 0 <= i < |order| && OutcomeOf(io, i) == EnqueueFailed
          && !Has(CreateAll(s, order[..i], io).releases, order[i].name);
      assert i < n ==> order[..n][i] == order[i];
    }
  }
}
