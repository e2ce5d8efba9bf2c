/** Whole runs of serial reconciles, stated on containers and configurations. */
module SyncRuns {
  import opened Model
  import opened SessionNames
  import opened Mutagen
  import opened SyncController
  import opened SyncTheorems

  /** One reconcile: what it was asked, what the world did, what the daemon listed. */
  datatype Round = Round(containers: seq<Container>, enabled: bool, weather: Weather, listing: Option<Live>)

  function Demand(r: Round, digest: Digest): seq<Job> {
    Jobs(r.containers, r.weather, digest)
  }

  /** The daemon after a round; `Reconcile` establishes this equation. */
  function RoundEnd(ms: Mirrors, r: Round, digest: Digest): Mirrors {
    if r.enabled then After(ms, Demand(r, digest), r.listing, r.weather.terminate) else ms
  }

  function RunEnd(ms: Mirrors, rounds: seq<Round>, digest: Digest): Mirrors
    decreases |rounds|
  {
    if rounds == [] then ms else RunEnd(RoundEnd(ms, rounds[0], digest), rounds[1..], digest)
  }

  /** The world's side of a round: distinct short IDs, fresh identifiers, a truthful listing. No call needs to
      succeed. */
  ghost predicate Possible(ms: Mirrors, r: Round, digest: Digest) {
    && DistinctShortIds(r.containers)
    && FreshIds(ms, Demand(r, digest))
    && ListingFor(ms, r.weather, r.listing)
  }

  ghost predicate PossibleRun(ms: Mirrors, rounds: seq<Round>, digest: Digest)
    decreases |rounds|
  {
    rounds == [] ||
    (Possible(ms, rounds[0], digest) && PossibleRun(RoundEnd(ms, rounds[0], digest), rounds[1..], digest))
  }

  /** A container stays listed with a rule of the same name and the same sync entry at the same index. */
  ghost predicate Lists(r: Round, id: string, rule: string, index: nat, entry: SyncEntry) {
    exists c: nat | c < |r.containers| ::
      && r.containers[c].id == id && index < |Syncs(r.containers[c])|
      && r.containers[c].rule.value.name == rule
      && Syncs(r.containers[c])[index].manager == entry.manager
      && Syncs(r.containers[c])[index].container == entry.container
  }

  /** Every container's jobs are part of the work list. */
  lemma {:induction false} JobOfEntry(cs: seq<Container>, w: Weather, digest: Digest, c: nat, i: nat) returns (k: nat)
    requires c < |cs| && i < |JobsOf(cs[c], c, w, digest)|
    ensures k < |Jobs(cs, w, digest)| && Jobs(cs, w, digest)[k] == JobsOf(cs[c], c, w, digest)[i]
  {
    if c == |cs| - 1 {
      k := |Jobs(cs[..c], w, digest)| + i;
    } else {
      k := JobOfEntry(cs[..|cs| - 1], w, digest, c, i);
    }
  }

  lemma ListsWants(r: Round, digest: Digest, id: string, rule: string, index: nat, entry: SyncEntry)
    requires Lists(r, id, rule, index, entry)
    ensures SessionName(id, rule, index, entry, digest) in Wanted(Demand(r, digest))
  {
    var c: nat :| c < |r.containers| && r.containers[c].id == id && index < |Syncs(r.containers[c])|
      && r.containers[c].rule.value.name == rule
      && Syncs(r.containers[c])[index].manager == entry.manager
      && Syncs(r.containers[c])[index].container == entry.container;
    var k := JobOfEntry(r.containers, r.weather, digest, c, index);
    WantedMember(Demand(r, digest), k);
    assert SessionName(id, rule, index, Syncs(r.containers[c])[index], digest)
        == SessionName(id, rule, index, entry, digest);
  }

  /** What one possible round keeps, whatever fails in it. */
  lemma RoundSafe(ms: Mirrors, r: Round, digest: Digest)
    requires WellFormed(ms) && Possible(ms, r, digest)
    ensures var end := RoundEnd(ms, r, digest);
            && WellFormed(end)
            && (UniqueOwned(ms) ==> UniqueOwned(end))
            && (forall i | i in ms && (!r.enabled || !ms[i].owned || ms[i].name in Wanted(Demand(r, digest))) ::
                  i in end && end[i].name == ms[i].name && end[i].owned == ms[i].owned)
  {
    if r.enabled {
      NamesAreDistinct(r.containers, r.weather, digest);
      SafeUnderEveryFailure(ms, Demand(r, digest), r.weather, r.listing);
      if UniqueOwned(ms) { UniquenessKept(ms, Demand(r, digest), r.weather, r.listing); }
    }
  }

  /** Every run keeps identifiers well-formed and owned names unique. */
  lemma {:induction false} UniqueOverRuns(ms: Mirrors, rounds: seq<Round>, digest: Digest)
    requires WellFormed(ms) && PossibleRun(ms, rounds, digest)
    ensures WellFormed(RunEnd(ms, rounds, digest)) && (UniqueOwned(ms) ==> UniqueOwned(RunEnd(ms, rounds, digest)))
    decreases |rounds|
  {
    if rounds == [] {
    } else {
      RoundSafe(ms, rounds[0], digest);
      UniqueOverRuns(RoundEnd(ms, rounds[0], digest), rounds[1..], digest);
    }
  }

  /** While a container stays listed with the same rule name and sync entry, every session of that entry keeps its
      identifier, through stops, starts, outages, reloads that switch syncing off and on, and every pattern of
      failed or half-applied calls. */
  lemma {:induction false} SessionKept(
    ms: Mirrors, rounds: seq<Round>, digest: Digest, i: string, id: string, rule: string, index: nat, entry: SyncEntry)
    requires WellFormed(ms) && PossibleRun(ms, rounds, digest)
    requires i in ms && ms[i].owned && ms[i].name == SessionName(id, rule, index, entry, digest)
    requires forall k | 0 <= k < |rounds| && rounds[k].enabled :: Lists(rounds[k], id, rule, index, entry)
    ensures var end := RunEnd(ms, rounds, digest); i in end && end[i].owned && end[i].name == ms[i].name
    decreases |rounds|
  {
    if rounds == [] {
    } else {
      var r, rest := rounds[0], rounds[1..];
      if r.enabled { ListsWants(r, digest, id, rule, index, entry); }
      RoundSafe(ms, r, digest);
      forall k | 0 <= k < |rest| && rest[k].enabled ensures Lists(rest[k], id, rule, index, entry) {
        assert rest[k] == rounds[k + 1];
      }
      SessionKept(RoundEnd(ms, r, digest), rest, digest, i, id, rule, index, entry);
    }
  }

  /** With serial reconciles it also stays the only owned session of that name. */
  lemma IdentityKept(
    ms: Mirrors, rounds: seq<Round>, digest: Digest, i: string, id: string, rule: string, index: nat, entry: SyncEntry)
    requires WellFormed(ms) && UniqueOwned(ms) && PossibleRun(ms, rounds, digest)
    requires i in ms && ms[i].owned && ms[i].name == SessionName(id, rule, index, entry, digest)
    requires forall k | 0 <= k < |rounds| && rounds[k].enabled :: Lists(rounds[k], id, rule, index, entry)
    ensures var end, name := RunEnd(ms, rounds, digest), SessionName(id, rule, index, entry, digest);
            && i in end && end[i].owned && end[i].name == name
            && forall h | h in end && end[h].owned && end[h].name == name :: h == i
  {
    var end := RunEnd(ms, rounds, digest);
    SessionKept(ms, rounds, digest, i, id, rule, index, entry);
    UniqueOverRuns(ms, rounds, digest);
    SessionNameReserved(id, rule, index, entry, digest);
    assert forall h | h in end && end[h].owned && end[h].name == end[i].name ::
      ListedName(h, end[h]) == ListedName(i, end[i]);
  }

  /** Sessions that are not the manager's survive every run. */
  lemma {:induction false} ForeignersSurvive(ms: Mirrors, rounds: seq<Round>, digest: Digest, i: string)
    requires WellFormed(ms) && PossibleRun(ms, rounds, digest) && i in ms && !ms[i].owned
    ensures var end := RunEnd(ms, rounds, digest); i in end && !end[i].owned && end[i].name == ms[i].name
    decreases |rounds|
  {
    if rounds == [] {
    } else {
      RoundSafe(ms, rounds[0], digest);
      ForeignersSurvive(RoundEnd(ms, rounds[0], digest), rounds[1..], digest, i);
    }
  }

  // ---------------------------------------------------------------- fixpoint on containers

  /** The verdict on one job's endpoints and everything else about it except the failures. */
  ghost predicate SameDemand(a: Job, b: Job) {
    a.session == b.session && a.running == b.running && a.invalid == b.invalid
  }

  lemma SameEntries(c: Container, ci: nat, n: nat, w: Weather, v: Weather, digest: Digest)
    requires n <= |Syncs(c)| && forall i: nat :: w.probe(ci, i) == v.probe(ci, i)
    ensures |JobsUpTo(c, ci, n, w, digest)| == |JobsUpTo(c, ci, n, v, digest)| == n
    ensures forall k | 0 <= k < n :: SameDemand(JobsUpTo(c, ci, n, w, digest)[k], JobsUpTo(c, ci, n, v, digest)[k])
  {}

  lemma {:induction false} SameJobs(cs: seq<Container>, w: Weather, v: Weather, digest: Digest)
    requires forall c: nat, i: nat :: w.probe(c, i) == v.probe(c, i)
    ensures |Jobs(cs, w, digest)| == |Jobs(cs, v, digest)|
    ensures forall k | 0 <= k < |Jobs(cs, w, digest)| :: SameDemand(Jobs(cs, w, digest)[k], Jobs(cs, v, digest)[k])
  {
    if cs == [] {
    } else {
      var n := |cs| - 1;
      SameJobs(cs[..n], w, v, digest);
      SameEntries(cs[n], n, |Syncs(cs[n])|, w, v, digest);
    }
  }

  lemma {:induction false} SameWanted(a: seq<Job>, b: seq<Job>)
    requires |a| == |b| && forall k | 0 <= k < |a| :: SameDemand(a[k], b[k])
    ensures Wanted(a) == Wanted(b)
  {
    if a == [] {
    } else {
      assert SameDemand(a[|a| - 1], b[|a| - 1]);
      SameWanted(a[..|a| - 1], b[..|a| - 1]);
    }
  }

  lemma SettledForBoth(ms: Mirrors, a: seq<Job>, b: seq<Job>)
    requires |a| == |b| && forall k | 0 <= k < |a| :: SameDemand(a[k], b[k])
    requires Settled(ms, a)
    ensures Settled(ms, b)
  {
    SameWanted(a, b);
    forall n | n in Creatable(b) ensures n in Creatable(a) {
      var k :| 0 <= k < |b| && b[k].running && b[k].invalid.None? && b[k].session.name == n;
      assert SameDemand(a[k], b[k]);
    }
    forall k, i | 0 <= k < |b| && i in View(ms, b[k].session.name)
      ensures !b[k].running ==> ms[i].paused
      ensures b[k].running && b[k].invalid.None? ==> !ms[i].paused
    {
      assert SameDemand(a[k], b[k]);
      assert i in View(ms, a[k].session.name);
    }
  }

  function Names(sessions: seq<Session>): seq<string> {
    seq(|sessions|, k requires 0 <= k < |sessions| => sessions[k].name)
  }

  /** The calls that a round may add to the daemon's trace; `Reconcile` establishes this. */
  ghost predicate MayIssue(r: Round, digest: Digest, calls: seq<Call>) {
    if !r.enabled then calls == []
    else exists sweep: seq<Call> ::
      SweepsOrphans(sweep, Wanted(Demand(r, digest)), r.listing)
          && calls == JobCalls(Demand(r, digest), r.listing) + sweep
  }

  /** Whatever it issues, a round only pauses and resumes. */
  ghost predicate Idle(r: Round, digest: Digest) {
    forall calls: seq<Call> | MayIssue(r, digest, calls) :: forall c | c in calls :: c.Pause? || c.Resume?
  }

  lemma NothingToSweep(sweep: seq<Call>, names: set<string>, listing: Option<Live>)
    requires SweepsOrphans(sweep, names, listing) && (listing.Some? ==> Orphans(names, listing.value) == {})
    ensures forall c :: c !in sweep
  {
    var issued := set c | c in sweep;
    assert issued == if listing.None? then {} else TerminateCalls(Orphans(names, listing.value));
    assert issued == {};
    assert forall c | c in sweep :: c in issued;
  }

  lemma IdleRound(r: Round, digest: Digest)
    requires forall c | c in JobCalls(Demand(r, digest), r.listing) :: c.Pause? || c.Resume?
    requires r.listing.Some? ==> Orphans(Wanted(Demand(r, digest)), r.listing.value) == {}
    ensures Idle(r, digest)
  {
    var jobs := Demand(r, digest);
    forall calls: seq<Call> | MayIssue(r, digest, calls) ensures forall c | c in calls :: c.Pause? || c.Resume? {
      if r.enabled {
        var sweep: seq<Call> :|
            SweepsOrphans(sweep, Wanted(jobs), r.listing) && calls == JobCalls(jobs, r.listing) + sweep;
        NothingToSweep(sweep, Wanted(jobs), r.listing);
      }
    }
  }

  lemma SameNames(a: seq<Job>, la: Option<Live>, b: seq<Job>, lb: Option<Live>)
    requires |a| == |b| && forall k | 0 <= k < |a| :: SameDemand(a[k], b[k])
    ensures Names(Reports(b, lb)) == Names(Reports(a, la))
  {
    if a != [] {
      ReportsAt(a, la, 0);
      ReportsAt(b, lb, 0);
    }
    forall k | 0 <= k < |a| ensures Reports(b, lb)[k].name == Reports(a, la)[k].name {
      assert SameDemand(a[k], b[k]);
      ReportsAt(a, la, k);
      ReportsAt(b, lb, k);
    }
  }

  /** One such round: nothing created, nothing terminated, nothing changed, the same names reported in the same
      order. */
  lemma SecondReconcile(ms: Mirrors, cs: seq<Container>, w: Weather, r: Round, digest: Digest)
    requires WellFormed(ms) && ReservedNames(Jobs(cs, w, digest)) && Settled(ms, Jobs(cs, w, digest))
    requires ListingFor(ms, r.weather, r.listing)
    requires r.containers == cs && forall c: nat, i: nat :: r.weather.probe(c, i) == w.probe(c, i)
    ensures RoundEnd(ms, r, digest) == ms
    ensures Idle(r, digest)
    ensures forall first: Option<Live> ::
        Names(Reports(Demand(r, digest), r.listing)) == Names(Reports(Jobs(cs, w, digest), first))
  {
    var a, b := Jobs(cs, w, digest), Demand(r, digest);
    SameJobs(cs, w, r.weather, digest);
    SettledForBoth(ms, a, b);
    forall k | 0 <= k < |b| ensures Reserved(b[k].session.name) { assert SameDemand(a[k], b[k]); }
    SettledIsFixed(ms, b, r.weather, r.listing);
    IdleRound(r, digest);
    forall first: Option<Live> ensures Names(Reports(b, r.listing)) == Names(Reports(a, first)) {
      SameNames(a, first, b, r.listing);
    }
  }

  /** After a reconcile whose calls landed, every later run over the same containers and endpoint kinds,
      whatever fails in it, leaves the daemon as it is. */
  lemma {:induction false} FixpointRun(ms: Mirrors, cs: seq<Container>, w: Weather, rounds: seq<Round>, digest: Digest)
    requires WellFormed(ms) && ReservedNames(Jobs(cs, w, digest)) && Settled(ms, Jobs(cs, w, digest))
    requires PossibleRun(ms, rounds, digest)
    requires forall k | 0 <= k < |rounds| ::
      rounds[k].containers == cs && forall c: nat, i: nat :: rounds[k].weather.probe(c, i) == w.probe(c, i)
    ensures RunEnd(ms, rounds, digest) == ms
    ensures forall k | 0 <= k < |rounds| :: Idle(rounds[k], digest)
  {
    if rounds == [] {
    } else {
      var r, rest := rounds[0], rounds[1..];
      SecondReconcile(ms, cs, w, r, digest);
      assert forall k | 0 <= k < |rest| :: rest[k] == rounds[k + 1];
      FixpointRun(ms, cs, w, rest, digest);
      forall k | 0 <= k < |rounds| ensures Idle(rounds[k], digest) {
        assert if k == 0 then rounds[k] == r else rounds[k] == rest[k - 1];
      }
    }
  }

  /** From any start in which no two orphans share a listed name: one reconcile whose calls land, then any run over
      the same containers. */
  lemma ConvergesThenRests(
    ms: Mirrors, first: Round, rounds: seq<Round>, digest: Digest)
    requires WellFormed(ms) && Possible(ms, first, digest) && first.enabled && first.listing.Some?
    requires OrphansUnique(ms, Demand(first, digest))
    requires ForeignApart(ms, Demand(first, digest))
    requires CallsLand(ms, Demand(first, digest), first.listing.value, first.weather.terminate)
    requires PossibleRun(RoundEnd(ms, first, digest), rounds, digest)
    requires forall k | 0 <= k < |rounds| ::
      rounds[k].containers == first.containers
      && forall c: nat, i: nat :: rounds[k].weather.probe(c, i) == first.weather.probe(c, i)
    ensures var end := RunEnd(ms, [first] + rounds, digest);
            && end == RoundEnd(ms, first, digest)
            && Settled(end, Demand(first, digest))
            && (forall k | 0 <= k < |rounds| :: Idle(rounds[k], digest))
            && OwnedNames(end) == OwnedNames(ms) * Wanted(Demand(first, digest)) + Creatable(Demand(first, digest))
  {
    NamesAreDistinct(first.containers, first.weather, digest);
    SafeUnderEveryFailure(ms, Demand(first, digest), first.weather, first.listing);
    Converges(ms, Demand(first, digest), first.weather, first.listing.value);
    FixpointRun(RoundEnd(ms, first, digest), first.containers, first.weather, rounds, digest);
    assert ([first] + rounds)[1..] == rounds;
  }

  /** A possible round with a listing, in which every call that has a target lands. */
  ghost predicate Landing(ms: Mirrors, r: Round, digest: Digest) {
    && Possible(ms, r, digest) && r.enabled && r.listing.Some?
    && CallsLand(ms, Demand(r, digest), r.listing.value, r.weather.terminate)
  }

  ghost predicate LandingRun(ms: Mirrors, rounds: seq<Round>, digest: Digest)
    decreases |rounds|
  {
    rounds == [] || (Landing(ms, rounds[0], digest) && LandingRun(RoundEnd(ms, rounds[0], digest), rounds[1..], digest))
  }

  lemma {:induction false} LandingIsPossible(ms: Mirrors, rounds: seq<Round>, digest: Digest)
    requires LandingRun(ms, rounds, digest)
    ensures PossibleRun(ms, rounds, digest)
    decreases |rounds|
  {
    if rounds == [] {
    } else {
      LandingIsPossible(RoundEnd(ms, rounds[0], digest), rounds[1..], digest);
    }
  }

  /** Whatever was there at the start, also several orphans of one name: as many landing rounds as there are orphans,
      and
      at least one, reach the desired state. */
  lemma {:induction false} ConvergesEventually(
    ms: Mirrors, cs: seq<Container>, w: Weather, rounds: seq<Round>, digest: Digest)
    requires WellFormed(ms) && LandingRun(ms, rounds, digest) && ForeignApart(ms, Jobs(cs, w, digest))
    requires rounds != [] && |Orphaned(ms, Jobs(cs, w, digest))| <= |rounds|
    requires forall k | 0 <= k < |rounds| ::
      rounds[k].containers == cs && forall c: nat, i: nat :: rounds[k].weather.probe(c, i) == w.probe(c, i)
    ensures Settled(RunEnd(ms, rounds, digest), Jobs(cs, w, digest))
    decreases |rounds|
  {
    var r, rest, wanted := rounds[0], rounds[1..], Jobs(cs, w, digest);
    var jobs, mid := Demand(r, digest), RoundEnd(ms, r, digest);
    assert forall k | 0 <= k < |rest| :: rest[k] == rounds[k + 1];
    SameJobs(cs, w, r.weather, digest);
    SameWanted(wanted, jobs);
    NamesAreDistinct(cs, r.weather, digest);
    NamesAreDistinct(cs, w, digest);
    SafeUnderEveryFailure(ms, jobs, r.weather, r.listing);
    Converges(ms, jobs, r.weather, r.listing.value);
    if OrphansUnique(ms, jobs) {
      SettledForBoth(mid, jobs, wanted);
      LandingIsPossible(mid, rest, digest);
      FixpointRun(mid, cs, w, rest, digest);
    } else {
      SharedMeansTwo(ms, jobs);
      OrphansShrink(ms, jobs, r.weather, r.listing.value);
      ConvergesEventually(mid, cs, w, rest, digest);
    }
  }
}
