/** What `Reconcile` guarantees about the daemon: safety under every failure pattern,
    convergence, a fixpoint, and stable identities over whole runs. */
module SyncTheorems {
  import opened Model
  import opened SessionNames
  import opened Mutagen
  import opened SyncController

  // ---------------------------------------------------------------- assumptions

  /** Identifiers are non-empty, are never session names and never look like one of ours. */
  ghost predicate WellFormed(ms: Mirrors) {
    forall i | i in ms :: i != "" && !Reserved(i) && ms[i].name !in ms
  }

  ghost predicate FreshId(ms: Mirrors, id: string) {
    && id != "" && !Reserved(id) && id !in ms
    && forall i | i in ms :: ms[i].name != id
  }

  /** The daemon mints a new identifier for every creation. */
  ghost predicate FreshIds(ms: Mirrors, jobs: seq<Job>) {
    && (forall k | 0 <= k < |jobs| :: FreshId(ms, jobs[k].newId))
    && (forall k, l | 0 <= k < l < |jobs| :: jobs[k].newId != jobs[l].newId)
  }

  ghost predicate ReservedNames(jobs: seq<Job>) {
    forall k | 0 <= k < |jobs| :: Reserved(jobs[k].session.name)
  }

  ghost predicate DistinctNames(jobs: seq<Job>) {
    forall k, l | 0 <= k < l < |jobs| :: jobs[k].session.name != jobs[l].session.name
  }

  ghost predicate DistinctShortIds(cs: seq<Container>) {
    forall i, j | 0 <= i < j < |cs| :: ShortId(cs[i].id) != ShortId(cs[j].id)
  }

  /** No two owned sessions are listed under the same name. */
  ghost predicate UniqueOwned(ms: Mirrors) {
    forall i, j | i in ms && j in ms && ms[i].owned && ms[j].owned
        && ListedName(i, ms[i]) == ListedName(j, ms[j]) :: i == j
  }

  // ---------------------------------------------------------------- the work list

  /** Every job is the job of some sync entry of some listed container. */
  lemma {:induction false} JobOrigin(cs: seq<Container>, w: Weather, digest: Digest, k: nat)
      returns (c: nat, i: nat)
    requires k < |Jobs(cs, w, digest)|
    ensures c < |cs| && i < |Syncs(cs[c])| && Jobs(cs, w, digest)[k] == JobAt(cs[c], c, i, w, digest)
    ensures var before := |Jobs(cs[..|cs| - 1], w, digest)|;
            if k < before then c < |cs| - 1 else c == |cs| - 1 && i == k - before
  {
    var n := |cs| - 1;
    var before, own := Jobs(cs[..n], w, digest), JobsOf(cs[n], n, w, digest);
    if k < |before| {
      c, i := JobOrigin(cs[..n], w, digest, k);
    } else {
      c, i := n, k - |before|;
    }
  }

  lemma SameNameSameSlot(c1: Container, ci1: nat, i1: nat, c2: Container, ci2: nat, i2: nat, w: Weather, digest: Digest)
    requires i1 < |Syncs(c1)| && i2 < |Syncs(c2)|
    requires JobAt(c1, ci1, i1, w, digest).session.name == JobAt(c2, ci2, i2, w, digest).session.name
    ensures ShortId(c1.id) == ShortId(c2.id) && i1 == i2
  {
    SessionNameInjective(c1.id, c1.rule.value.name, i1, Syncs(c1)[i1], c2.id, c2.rule.value.name, i2, Syncs(c2)[i2],
        digest);
  }

  lemma OriginsDiffer(cs: seq<Container>, w: Weather, digest: Digest, k: nat, l: nat)
    requires cs != [] && DistinctShortIds(cs)
    requires |Jobs(cs[..|cs| - 1], w, digest)| <= l < |Jobs(cs, w, digest)| && k < l
    ensures Jobs(cs, w, digest)[k].session.name != Jobs(cs, w, digest)[l].session.name
  {
    var jobs := Jobs(cs, w, digest);
    var c, i := JobOrigin(cs, w, digest, k);
    var d, j := JobOrigin(cs, w, digest, l);
    if jobs[k].session.name == jobs[l].session.name {
      SameNameSameSlot(cs[c], c, i, cs[d], d, j, w, digest);
    }
  }

  /** Containers with distinct short IDs demand pairwise distinct, reserved names:
      no assumption about the hash is needed. */
  lemma {:induction false} NamesAreDistinct(cs: seq<Container>, w: Weather, digest: Digest)
    requires DistinctShortIds(cs)
    ensures DistinctNames(Jobs(cs, w, digest)) && ReservedNames(Jobs(cs, w, digest))
  {
    var jobs := Jobs(cs, w, digest);
    forall k | 0 <= k < |jobs| ensures Reserved(jobs[k].session.name) {
      var c, i := JobOrigin(cs, w, digest, k);
      SessionNameReserved(cs[c].id, cs[c].rule.value.name, i, Syncs(cs[c])[i], digest);
    }
    if cs == [] {
    } else {
      var n := |cs| - 1;
      NamesAreDistinct(cs[..n], w, digest);
      var before := Jobs(cs[..n], w, digest);
      forall k, l | 0 <= k < l < |jobs| ensures jobs[k].session.name != jobs[l].session.name {
        if l < |before| {
          assert jobs[k] == before[k] && jobs[l] == before[l];
        } else {
          OriginsDiffer(cs, w, digest, k, l);
        }
      }
    }
  }

  lemma {:induction false} WantedMember(jobs: seq<Job>, k: nat)
    requires k < |jobs|
    ensures jobs[k].session.name in Wanted(jobs)
  {
    if k < |jobs| - 1 { WantedMember(jobs[..|jobs| - 1], k); }
  }

  lemma {:induction false} WantedBy(jobs: seq<Job>, name: string) returns (k: nat)
    requires name in Wanted(jobs)
    ensures k < |jobs| && jobs[k].session.name == name
  {
    if jobs[|jobs| - 1].session.name == name {
      k := |jobs| - 1;
    } else {
      k := WantedBy(jobs[..|jobs| - 1], name);
    }
  }

  lemma {:induction false} ReportsLength(jobs: seq<Job>, listing: Option<Live>)
    ensures |Reports(jobs, listing)| == |jobs|
  {
    if jobs == [] {
    } else {
      ReportsLength(jobs[..|jobs| - 1], listing);
    }
  }

  lemma {:induction false} ReportsAt(jobs: seq<Job>, listing: Option<Live>, k: nat)
    requires k < |jobs|
    ensures |Reports(jobs, listing)| == |jobs| && Reports(jobs, listing)[k] == Report(jobs[k], listing)
  {
    ReportsLength(jobs[..|jobs| - 1], listing);
    if k < |jobs| - 1 {
      ReportsAt(jobs[..|jobs| - 1], listing, k);
    }
  }

  // ---------------------------------------------------------------- safety

  function NewIds(jobs: seq<Job>): set<string> {
    if jobs == [] then {} else NewIds(jobs[..|jobs| - 1]) + {jobs[|jobs| - 1].newId}
  }

  lemma {:induction false} NewIdUnused(jobs: seq<Job>, id: string)
    requires forall k | 0 <= k < |jobs| :: jobs[k].newId != id
    ensures id !in NewIds(jobs)
  {
    if jobs == [] {
    } else {
      NewIdUnused(jobs[..|jobs| - 1], id);
    }
  }

  /** Sessions present before are still there under their names; new ones are wanted and were not listed. */
  ghost predicate Evolved(before: Mirrors, now: Mirrors, jobs: seq<Job>, listing: Option<Live>) {
    && (forall i | i in before :: i in now && now[i].name == before[i].name && now[i].owned == before[i].owned)
    && (forall i | i in now && i !in before ::
          && now[i].owned && now[i].name in Wanted(jobs) && listing.Some? && now[i].name !in listing.value
          && i in NewIds(jobs))
  }

  /** What one job may do to the daemon, whether its call lands or not. */
  ghost predicate Stepped(mid: Mirrors, now: Mirrors, j: Job, listing: Option<Live>) {
    && (forall i | i in mid :: i in now && now[i].name == mid[i].name && now[i].owned == mid[i].owned)
    && (forall i | i in mid && mid[i].name != j.session.name :: now[i] == mid[i])
    && (forall i | i in now && i !in mid :: i == j.newId && now[i] == Mirror(j.session.name, true, false)
          && listing.Some? && j.session.name !in listing.value)
  }

  lemma StepEvolves(ms: Mirrors, j: Job, listing: Option<Live>)
    requires WellFormed(ms) && FreshId(ms, j.newId) && Reserved(j.session.name)
    ensures WellFormed(Step(ms, j, listing)) && Stepped(ms, Step(ms, j, listing), j, listing)
  {}

  lemma EvolvedMore(ms: Mirrors, mid: Mirrors, now: Mirrors, jobs: seq<Job>, listing: Option<Live>)
    requires jobs != [] && Evolved(ms, mid, jobs[..|jobs| - 1], listing) && Stepped(mid, now, jobs[|jobs| - 1], listing)
    ensures Evolved(ms, now, jobs, listing)
    ensures forall i | i in ms && ms[i].name !in Wanted(jobs) && mid[i] == ms[i] :: now[i] == ms[i]
  {}

  lemma LaterIdFresh(ms: Mirrors, jobs: seq<Job>, listing: Option<Live>)
    requires jobs != [] && FreshIds(ms, jobs) && ReservedNames(jobs)
    requires var init := jobs[..|jobs| - 1];
             Evolved(ms, Drive(ms, init, listing), init, listing) && WellFormed(Drive(ms, init, listing))
    ensures FreshId(Drive(ms, jobs[..|jobs| - 1], listing), jobs[|jobs| - 1].newId)
  {
    var init, id := jobs[..|jobs| - 1], jobs[|jobs| - 1].newId;
    var mid := Drive(ms, init, listing);
    assert FreshId(ms, id);
    NewIdUnused(init, id);
    forall i | i in mid ensures mid[i].name != id {
      if i !in ms {
        var k := WantedBy(init, mid[i].name);
        assert Reserved(jobs[k].session.name) && jobs[k] == init[k];
      }
    }
  }

  lemma {:induction false} DriveEvolves(ms: Mirrors, jobs: seq<Job>, listing: Option<Live>)
    requires WellFormed(ms) && FreshIds(ms, jobs) && ReservedNames(jobs)
    ensures Evolved(ms, Drive(ms, jobs, listing), jobs, listing) && WellFormed(Drive(ms, jobs, listing))
    ensures forall i | i in ms && ms[i].name !in Wanted(jobs) :: Drive(ms, jobs, listing)[i] == ms[i]
  {
    if jobs == [] {
    } else {
      var init := jobs[..|jobs| - 1];
      DriveEvolves(ms, init, listing);
      LaterIdFresh(ms, jobs, listing);
      StepEvolves(Drive(ms, init, listing), jobs[|jobs| - 1], listing);
      EvolvedMore(ms, Drive(ms, init, listing), Drive(ms, jobs, listing), jobs, listing);
    }
  }

  /** The sweep removes exactly the sessions whose listed name is unwanted and whose termination landed. */
  lemma SweepExact(ms: Mirrors, jobs: seq<Job>, health: string -> Health, live: Live, terminate: string -> Fate)
    requires WellFormed(ms) && FreshIds(ms, jobs) && ReservedNames(jobs) && IsListing(ms, health, live)
    ensures var drive, after := Drive(ms, jobs, Some(live)), After(ms, jobs, Some(live), terminate);
            && (forall i | i in after :: i in drive && after[i] == drive[i])
            && (forall i | i in drive :: i !in after <==> i in Doomed(Wanted(jobs), live, terminate))
            && (forall i | i in Doomed(Wanted(jobs), live, terminate) ::
                  i in ms && ms[i].owned && ms[i].name !in Wanted(jobs)
                  && ListedName(i, ms[i]) in live && live[ListedName(i, ms[i])].id == i
                  && Lands(terminate(ListedName(i, ms[i]))))
  {
    var drive, doomed := Drive(ms, jobs, Some(live)), Doomed(Wanted(jobs), live, terminate);
    DriveEvolves(ms, jobs, Some(live));
    forall i | i in doomed
      ensures i in ms && ms[i].owned && ms[i].name !in Wanted(jobs)
      ensures ListedName(i, ms[i]) in live && live[ListedName(i, ms[i])].id == i
          && Lands(terminate(ListedName(i, ms[i])))
    {
      var n :| n in live && n !in Wanted(jobs) && Target(live[n]) != "" && Lands(terminate(n)) && Target(live[n]) == i;
      assert live[n].id != "" && n == ListedName(i, ms[i]);
      if "" in Wanted(jobs) {
        var _ := WantedBy(jobs, "");
      }
    }
  }

  /** Whatever fails, and however it fails: every session under a wanted name and every foreign
      session keeps its identifier and name; nothing appears except wanted names that were not
      live; foreign sessions under other names are not touched at all. */
  lemma SafeUnderEveryFailure(ms: Mirrors, jobs: seq<Job>, w: Weather, listing: Option<Live>)
    requires WellFormed(ms) && FreshIds(ms, jobs) && ReservedNames(jobs) && ListingFor(ms, w, listing)
    ensures var after := After(ms, jobs, listing, w.terminate);
            && WellFormed(after)
            && (forall i | i in ms && (ms[i].name in Wanted(jobs) || !ms[i].owned) ::
                  i in after && after[i].name == ms[i].name && after[i].owned == ms[i].owned)
            && (forall i | i in after && i in ms :: after[i].name == ms[i].name && after[i].owned == ms[i].owned)
            && (forall i | i in after && i !in ms ::
                  && after[i].owned && after[i].name in Wanted(jobs)
                  && forall h | h in ms && ms[h].owned :: ms[h].name != after[i].name)
            && (forall i | i in after && after[i].name !in Wanted(jobs) :: i in ms && after[i] == ms[i])
  {
    if listing.Some? {
      DriveEvolves(ms, jobs, listing);
      SweepExact(ms, jobs, w.health, listing.value, w.terminate);
      forall i | i in Drive(ms, jobs, listing) && i !in ms
        ensures forall h | h in ms && ms[h].owned :: ms[h].name != Drive(ms, jobs, listing)[i].name
      {
        forall h | h in ms && ms[h].owned ensures ms[h].name != Drive(ms, jobs, listing)[i].name {
          assert ListedName(h, ms[h]) in listing.value;
          var k := WantedBy(jobs, Drive(ms, jobs, listing)[i].name);
          assert Reserved(jobs[k].session.name);
        }
      }
    }
  }

  // ---------------------------------------------------------------- locality

  /** The sessions that carry one name. */
  function View(ms: Mirrors, name: string): Mirrors {
    map i | i in ms && ms[i].name == name :: ms[i]
  }

  lemma PauseLocal(ms: Mirrors, spec: string, paused: bool, name: string)
    requires WellFormed(ms) && Reserved(spec)
    ensures View(SetPaused(ms, spec, paused), name) ==
            if name == spec then SetPaused(View(ms, name), spec, paused) else View(ms, name)
  {}

  lemma CreateLocal(ms: Mirrors, id: string, n: string, name: string)
    requires FreshId(ms, id)
    ensures View(ms[id := Mirror(n, true, false)], name) ==
            if name == n then View(ms, name)[id := Mirror(n, true, false)] else View(ms, name)
  {}

  lemma StepLocal(ms: Mirrors, j: Job, listing: Option<Live>, name: string)
    requires WellFormed(ms) && FreshId(ms, j.newId) && Reserved(j.session.name)
    ensures View(Step(ms, j, listing), name) ==
            if name == j.session.name then Step(View(ms, name), j, listing) else View(ms, name)
  {
    if listing.None? || !Lands(j.fate) || (j.running && j.invalid.Some?) {
    } else if j.running && j.session.name !in listing.value {
      CreateLocal(ms, j.newId, j.session.name, name);
    } else {
      PauseLocal(ms, j.session.name, !j.running, name);
    }
  }

  lemma LastLocal(ms: Mirrors, jobs: seq<Job>, listing: Option<Live>, name: string)
    requires WellFormed(ms) && FreshIds(ms, jobs) && ReservedNames(jobs) && jobs != []
    ensures var mid, last := View(Drive(ms, jobs[..|jobs| - 1], listing), name), jobs[|jobs| - 1];
            View(Drive(ms, jobs, listing), name) == if name == last.session.name then Step(mid, last, listing) else mid
  {
    var init := jobs[..|jobs| - 1];
    DriveEvolves(ms, init, listing);
    LaterIdFresh(ms, jobs, listing);
    StepLocal(Drive(ms, init, listing), jobs[|jobs| - 1], listing, name);
  }

  /** Jobs under other names leave the sessions of a name alone. */
  lemma {:induction false} DriveElsewhere(ms: Mirrors, jobs: seq<Job>, listing: Option<Live>, name: string)
    requires WellFormed(ms) && FreshIds(ms, jobs) && ReservedNames(jobs) && name !in Wanted(jobs)
    ensures View(Drive(ms, jobs, listing), name) == View(ms, name)
  {
    if jobs == [] {
    } else {
      DriveElsewhere(ms, jobs[..|jobs| - 1], listing, name);
      LastLocal(ms, jobs, listing, name);
    }
  }

  /** With distinct names, the sessions of a wanted name see exactly their own job. */
  lemma {:induction false} DriveLocal(ms: Mirrors, jobs: seq<Job>, listing: Option<Live>, k: nat)
    requires WellFormed(ms) && FreshIds(ms, jobs) && ReservedNames(jobs) && DistinctNames(jobs) && k < |jobs|
    ensures View(Drive(ms, jobs, listing), jobs[k].session.name)
        == Step(View(ms, jobs[k].session.name), jobs[k], listing)
  {
    var init, name := jobs[..|jobs| - 1], jobs[k].session.name;
    LastLocal(ms, jobs, listing, name);
    if k < |jobs| - 1 {
      assert init[k] == jobs[k];
      DriveLocal(ms, init, listing, k);
    } else {
      if name in Wanted(init) {
        var l := WantedBy(init, name);
      }
      DriveElsewhere(ms, init, listing, name);
    }
  }

  /** After a whole reconcile, too. */
  lemma AfterLocal(ms: Mirrors, jobs: seq<Job>, w: Weather, listing: Option<Live>, k: nat)
    requires WellFormed(ms) && FreshIds(ms, jobs) && ReservedNames(jobs) && DistinctNames(jobs) && k < |jobs|
    requires ListingFor(ms, w, listing)
    ensures View(After(ms, jobs, listing, w.terminate), jobs[k].session.name)
            == Step(View(ms, jobs[k].session.name), jobs[k], listing)
  {
    if listing.Some? {
      DriveLocal(ms, jobs, listing, k);
      DriveEvolves(ms, jobs, listing);
      SweepExact(ms, jobs, w.health, listing.value, w.terminate);
      WantedMember(jobs, k);
    }
  }

  lemma WantedNameUnique(ms: Mirrors, jobs: seq<Job>, w: Weather, listing: Option<Live>, i: string, j: string)
    requires WellFormed(ms) && FreshIds(ms, jobs) && ReservedNames(jobs) && DistinctNames(jobs)
    requires ListingFor(ms, w, listing) && UniqueOwned(ms)
    requires var after := After(ms, jobs, listing, w.terminate);
             && i in after && j in after && after[i].owned && after[j].owned
             && after[i].name == after[j].name && after[i].name in Wanted(jobs)
    ensures i == j
  {
    var after := After(ms, jobs, listing, w.terminate);
    var name := after[i].name;
    var k := WantedBy(jobs, name);
    AfterLocal(ms, jobs, w, listing, k);
    SafeUnderEveryFailure(ms, jobs, w, listing);
    assert i in View(after, name) && j in View(after, name);
  }

  /** A reconcile never gives a name a second owned session, whatever fails. */
  lemma UniquenessKept(ms: Mirrors, jobs: seq<Job>, w: Weather, listing: Option<Live>)
    requires WellFormed(ms) && FreshIds(ms, jobs) && ReservedNames(jobs) && DistinctNames(jobs)
    requires ListingFor(ms, w, listing) && UniqueOwned(ms)
    ensures UniqueOwned(After(ms, jobs, listing, w.terminate))
  {
    var after := After(ms, jobs, listing, w.terminate);
    SafeUnderEveryFailure(ms, jobs, w, listing);
    forall i, j | i in after && j in after && after[i].owned && after[j].owned
                  && ListedName(i, after[i]) == ListedName(j, after[j])
      ensures i == j
    {
      if after[i].name in Wanted(jobs) && after[i].name == after[j].name {
        WantedNameUnique(ms, jobs, w, listing, i, j);
      }
    }
  }

  // ---------------------------------------------------------------- convergence and fixpoint

  function OwnedNames(ms: Mirrors): set<string> {
    set i | i in ms && ms[i].owned :: ms[i].name
  }

  /** Names that should be mirrored now: running containers with valid endpoints. */
  function Creatable(jobs: seq<Job>): set<string> {
    set k | 0 <= k < |jobs| && jobs[k].running && jobs[k].invalid.None? :: jobs[k].session.name
  }

  /** Nobody else uses the names the manager uses. */
  ghost predicate ForeignApart(ms: Mirrors, jobs: seq<Job>) {
    forall i | i in ms && !ms[i].owned :: ms[i].name !in Wanted(jobs)
  }

  /** Every call that has a target, creates one or terminates one takes effect. */
  ghost predicate CallsLand(ms: Mirrors, jobs: seq<Job>, live: Live, terminate: string -> Fate) {
    && (forall k | 0 <= k < |jobs|
        && ((jobs[k].running && jobs[k].invalid.None?) || View(ms, jobs[k].session.name) != map[]) ::
          Lands(jobs[k].fate))
    && (forall n | n in live :: Lands(terminate(n)))
  }

  ghost predicate NoOrphans(ms: Mirrors, jobs: seq<Job>) {
    forall i | i in ms && ms[i].owned :: ms[i].name in Wanted(jobs)
  }

  /** The desired state: no orphan, stopped containers paused, healthy running ones mirrored and unpaused. */
  ghost predicate Settled(ms: Mirrors, jobs: seq<Job>) {
    && NoOrphans(ms, jobs)
    && (forall k, i | 0 <= k < |jobs| && !jobs[k].running && i in View(ms, jobs[k].session.name) :: ms[i].paused)
    && (forall k, i | 0 <= k < |jobs| && jobs[k].running && jobs[k].invalid.None?
        && i in View(ms, jobs[k].session.name) ::
          !ms[i].paused)
    && Creatable(jobs) <= OwnedNames(ms)
  }

  lemma OwnedName(ms: Mirrors, i: string)
    requires i in ms && ms[i].owned
    ensures ms[i].name in OwnedNames(ms)
  {}

  /** Whatever fails: no wanted name that was live is lost, and only wanted names are gained. */
  lemma OwnedNamesBounded(ms: Mirrors, jobs: seq<Job>, w: Weather, listing: Option<Live>)
    requires WellFormed(ms) && FreshIds(ms, jobs) && ReservedNames(jobs) && ListingFor(ms, w, listing)
    ensures var after := OwnedNames(After(ms, jobs, listing, w.terminate));
            OwnedNames(ms) * Wanted(jobs) <= after <= OwnedNames(ms) + Wanted(jobs)
  {
    var after := After(ms, jobs, listing, w.terminate);
    SafeUnderEveryFailure(ms, jobs, w, listing);
    forall n | n in OwnedNames(ms) * Wanted(jobs) ensures n in OwnedNames(after) {
      var i :| i in ms && ms[i].owned && ms[i].name == n;
      OwnedName(after, i);
    }
    forall n | n in OwnedNames(after) ensures n in OwnedNames(ms) + Wanted(jobs) {
      var i :| i in after && after[i].owned && after[i].name == n;
      if i in ms { OwnedName(ms, i); }
    }
  }

  /** No two owned sessions with unwanted names are listed under the same name. */
  ghost predicate OrphansUnique(ms: Mirrors, jobs: seq<Job>) {
    forall i, j | i in ms && j in ms && ms[i].owned && ms[j].owned
                  && ms[i].name !in Wanted(jobs) && ms[j].name !in Wanted(jobs)
                  && ListedName(i, ms[i]) == ListedName(j, ms[j]) :: i == j
  }

  /** What is listed under the name of an orphan is an orphan. */
  lemma ListedIsOrphan(ms: Mirrors, jobs: seq<Job>, w: Weather, live: Live, i: string)
    requires WellFormed(ms) && ReservedNames(jobs) && ListingFor(ms, w, Some(live))
    requires i in ms && ms[i].owned && ms[i].name !in Wanted(jobs)
    ensures var n := ListedName(i, ms[i]);
            && n in live && n !in Wanted(jobs)
            && live[n].id in ms && ms[live[n].id].owned && ms[live[n].id].name !in Wanted(jobs)
            && ListedName(live[n].id, ms[live[n].id]) == n
  {
    var n := ListedName(i, ms[i]);
    if n in Wanted(jobs) {
      var _ := WantedBy(jobs, n);
    }
    if "" in Wanted(jobs) {
      var _ := WantedBy(jobs, "");
    }
  }

  /** An orphan is swept exactly when it is the session listed under its name. */
  lemma OrphanSwept(ms: Mirrors, jobs: seq<Job>, w: Weather, live: Live, i: string)
    requires WellFormed(ms) && FreshIds(ms, jobs) && ReservedNames(jobs)
    requires ListingFor(ms, w, Some(live)) && forall n | n in live :: Lands(w.terminate(n))
    requires i in ms && ms[i].owned && ms[i].name !in Wanted(jobs)
    ensures var after, n := After(ms, jobs, Some(live), w.terminate), ListedName(i, ms[i]);
            n in live && (i in after <==> live[n].id != i) && (i in after ==> after[i] == ms[i])
  {
    SafeUnderEveryFailure(ms, jobs, w, Some(live));
    SweepExact(ms, jobs, w.health, live, w.terminate);
    DriveEvolves(ms, jobs, Some(live));
    ListedIsOrphan(ms, jobs, w, live, i);
    var n := ListedName(i, ms[i]);
    if live[n].id == i {
      assert Target(live[n]) in Doomed(Wanted(jobs), live, w.terminate);
    }
  }

  /** The listing keeps one session per name, so a sweep whose terminations land leaves no orphan if and only if
      no two orphans shared a listed name. */
  lemma NoOrphanSurvives(ms: Mirrors, jobs: seq<Job>, w: Weather, live: Live)
    requires WellFormed(ms) && FreshIds(ms, jobs) && ReservedNames(jobs)
    requires ListingFor(ms, w, Some(live)) && forall n | n in live :: Lands(w.terminate(n))
    ensures NoOrphans(After(ms, jobs, Some(live), w.terminate), jobs) <==> OrphansUnique(ms, jobs)
  {
    var after := After(ms, jobs, Some(live), w.terminate);
    SafeUnderEveryFailure(ms, jobs, w, Some(live));
    SweepExact(ms, jobs, w.health, live, w.terminate);
    forall i | i in ms && ms[i].owned && ms[i].name !in Wanted(jobs)
      ensures ListedName(i, ms[i]) in live && (i in after <==> live[ListedName(i, ms[i])].id != i)
      ensures i in after ==> after[i] == ms[i]
    {
      OrphanSwept(ms, jobs, w, live, i);
    }
    if !OrphansUnique(ms, jobs) {
      var i, j :| i in ms && j in ms && ms[i].owned && ms[j].owned && ms[i].name !in Wanted(jobs)
        && ms[j].name !in Wanted(jobs) && ListedName(i, ms[i]) == ListedName(j, ms[j]) && i != j;
      assert i in after || j in after;
    }
    if OrphansUnique(ms, jobs) {
      forall i | i in after && after[i].owned ensures after[i].name in Wanted(jobs) {
        if after[i].name !in Wanted(jobs) { ListedIsOrphan(ms, jobs, w, live, i); }
      }
    }
  }

  /** Two orphans with one name: one of them survives every sweep that takes place. */
  lemma TwinOrphans(w: Weather, live: Live)
    requires var twins := map["a" := Mirror("data", true, false), "b" := Mirror("data", true, false)];
             ListingFor(twins, w, Some(live)) && forall n | n in live :: Lands(w.terminate(n))
    ensures var twins := map["a" := Mirror("data", true, false), "b" := Mirror("data", true, false)];
            !NoOrphans(After(twins, [], Some(live), w.terminate), [])
  {
    var twins := map["a" := Mirror("data", true, false), "b" := Mirror("data", true, false)];
    assert "a" in twins && "b" in twins && "data" !in twins;
    NoOrphanSurvives(twins, [], w, live);
  }

  /** The owned sessions that nobody wants. */
  function Orphaned(ms: Mirrors, jobs: seq<Job>): set<string> {
    set i | i in ms && ms[i].owned && ms[i].name !in Wanted(jobs)
  }

  /** A sweep whose terminations land leaves fewer orphans than there were, if there were any. */
  lemma OrphansShrink(ms: Mirrors, jobs: seq<Job>, w: Weather, live: Live)
    requires WellFormed(ms) && FreshIds(ms, jobs) && ReservedNames(jobs)
    requires ListingFor(ms, w, Some(live)) && forall n | n in live :: Lands(w.terminate(n))
    ensures var before, after := Orphaned(ms, jobs), Orphaned(After(ms, jobs, Some(live), w.terminate), jobs);
            after <= before && (before != {} ==> |after| < |before|)
  {
    var before, after := Orphaned(ms, jobs), Orphaned(After(ms, jobs, Some(live), w.terminate), jobs);
    SafeUnderEveryFailure(ms, jobs, w, Some(live));
    if i :| i in before {
      ListedIsOrphan(ms, jobs, w, live, i);
      var swept := live[ListedName(i, ms[i])].id;
      OrphanSwept(ms, jobs, w, live, swept);
      assert swept in before && swept !in after;
      assert |before| == |after| + |before - after| && swept in before - after;
    }
  }

  /** Two orphans of one name are at least two. */
  lemma SharedMeansTwo(ms: Mirrors, jobs: seq<Job>)
    requires !OrphansUnique(ms, jobs)
    ensures |Orphaned(ms, jobs)| >= 2
  {
    var i, j :| i in ms && j in ms && ms[i].owned && ms[j].owned && ms[i].name !in Wanted(jobs)
      && ms[j].name !in Wanted(jobs) && ListedName(i, ms[i]) == ListedName(j, ms[j]) && i != j;
    var all := Orphaned(ms, jobs);
    assert |all| == |{i, j}| + |all - {i, j}|;
  }

  /** What the sessions of one job's name look like once its call has landed. */
  ghost predicate JobDone(before: Mirrors, after: Mirrors, j: Job) {
    var view := View(after, j.session.name);
    if !j.running then forall i | i in view :: after[i].paused
    else if j.invalid.None? then forall i | i in view :: !after[i].paused
    else view == View(before, j.session.name)
  }

  lemma LandedJobDone(ms: Mirrors, j: Job, live: Live, after: Mirrors)
    requires (j.running && j.invalid.None?) || View(ms, j.session.name) != map[] ==> Lands(j.fate)
    requires j.session.name !in live ==> View(ms, j.session.name) == map[]
    requires View(after, j.session.name) == Step(View(ms, j.session.name), j, Some(live))
    ensures JobDone(ms, after, j)
  {}

  lemma NotListed(ms: Mirrors, jobs: seq<Job>, w: Weather, live: Live, k: nat)
    requires k < |jobs| && ReservedNames(jobs) && ListingFor(ms, w, Some(live)) && ForeignApart(ms, jobs)
    ensures jobs[k].session.name !in live ==> View(ms, jobs[k].session.name) == map[]
  {
    WantedMember(jobs, k);
    forall i | i in ms && ms[i].name == jobs[k].session.name ensures jobs[k].session.name in live {
      assert Reserved(jobs[k].session.name) && ListedName(i, ms[i]) == jobs[k].session.name;
    }
  }

  /** A running container with valid endpoints has an owned session once its call has landed. */
  lemma MirroredNow(ms: Mirrors, j: Job, w: Weather, live: Live, after: Mirrors)
    requires j.running && j.invalid.None? && Lands(j.fate) && Reserved(j.session.name)
    requires WellFormed(ms) && ListingFor(ms, w, Some(live))
    requires View(after, j.session.name) == Step(View(ms, j.session.name), j, Some(live))
    ensures j.session.name in OwnedNames(after)
  {
    var n := j.session.name;
    var i := if n in live then live[n].id else j.newId;
    if n in live {
      assert ms[i].owned && ms[i].name == n;
      assert i in View(ms, n);
    }
    assert i in View(after, n);
    OwnedName(after, i);
  }

  lemma CreatableMirrored(ms: Mirrors, jobs: seq<Job>, w: Weather, live: Live)
    requires WellFormed(ms) && FreshIds(ms, jobs) && ReservedNames(jobs) && DistinctNames(jobs)
    requires ListingFor(ms, w, Some(live)) && CallsLand(ms, jobs, live, w.terminate)
    ensures Creatable(jobs) <= OwnedNames(After(ms, jobs, Some(live), w.terminate))
  {
    forall n | n in Creatable(jobs) ensures n in OwnedNames(After(ms, jobs, Some(live), w.terminate)) {
      var k :| 0 <= k < |jobs| && jobs[k].running && jobs[k].invalid.None? && jobs[k].session.name == n;
      AfterLocal(ms, jobs, w, Some(live), k);
      MirroredNow(ms, jobs[k], w, live, After(ms, jobs, Some(live), w.terminate));
    }
  }

  lemma NewcomerCreatable(ms: Mirrors, jobs: seq<Job>, w: Weather, live: Live, i: string)
    requires WellFormed(ms) && FreshIds(ms, jobs) && ReservedNames(jobs) && DistinctNames(jobs)
    requires ListingFor(ms, w, Some(live)) && i !in ms && i in After(ms, jobs, Some(live), w.terminate)
    ensures After(ms, jobs, Some(live), w.terminate)[i].name in Creatable(jobs)
  {
    var after := After(ms, jobs, Some(live), w.terminate);
    SafeUnderEveryFailure(ms, jobs, w, Some(live));
    var n := after[i].name;
    var k := WantedBy(jobs, n);
    AfterLocal(ms, jobs, w, Some(live), k);
    assert i in View(after, n) && i !in View(ms, n);
  }

  lemma ConvergedNames(ms: Mirrors, jobs: seq<Job>, w: Weather, live: Live)
    requires WellFormed(ms) && FreshIds(ms, jobs) && ReservedNames(jobs) && DistinctNames(jobs)
        && OrphansUnique(ms, jobs)
    requires ListingFor(ms, w, Some(live)) && CallsLand(ms, jobs, live, w.terminate)
    ensures OwnedNames(After(ms, jobs, Some(live), w.terminate)) == OwnedNames(ms) * Wanted(jobs) + Creatable(jobs)
  {
    var after := After(ms, jobs, Some(live), w.terminate);
    SafeUnderEveryFailure(ms, jobs, w, Some(live));
    NoOrphanSurvives(ms, jobs, w, live);
    CreatableMirrored(ms, jobs, w, live);
    forall n | n in OwnedNames(after) ensures n in OwnedNames(ms) * Wanted(jobs) + Creatable(jobs) {
      var i :| i in after && after[i].owned && after[i].name == n;
      if i in ms {
        OwnedName(ms, i);
      } else {
        NewcomerCreatable(ms, jobs, w, live, i);
      }
    }
    forall n | n in OwnedNames(ms) * Wanted(jobs) ensures n in OwnedNames(after) {
      var i :| i in ms && ms[i].owned && ms[i].name == n;
      OwnedName(after, i);
    }
  }

  /** Convergence: with a listed daemon whose calls land, one reconcile reaches the desired state if and only if no two
      orphans shared a listed name. The owned names are then exactly the live ones that are still wanted and the ones
      to be mirrored; where the endpoints are invalid nothing changes. Wanted names may have several owned sessions. */
  lemma Converges(ms: Mirrors, jobs: seq<Job>, w: Weather, live: Live)
    requires WellFormed(ms) && FreshIds(ms, jobs) && ReservedNames(jobs) && DistinctNames(jobs)
    requires ListingFor(ms, w, Some(live)) && CallsLand(ms, jobs, live, w.terminate) && ForeignApart(ms, jobs)
    ensures var after := After(ms, jobs, Some(live), w.terminate);
            && (Settled(after, jobs) <==> OrphansUnique(ms, jobs))
            && (OrphansUnique(ms, jobs) ==> OwnedNames(after) == OwnedNames(ms) * Wanted(jobs) + Creatable(jobs))
            && (forall k | 0 <= k < |jobs| && jobs[k].running && jobs[k].invalid.Some? ::
                  View(after, jobs[k].session.name) == View(ms, jobs[k].session.name))
  {
    var after := After(ms, jobs, Some(live), w.terminate);
    NoOrphanSurvives(ms, jobs, w, live);
    CreatableMirrored(ms, jobs, w, live);
    if OrphansUnique(ms, jobs) { ConvergedNames(ms, jobs, w, live); }
    forall k | 0 <= k < |jobs| ensures JobDone(ms, after, jobs[k]) {
      NotListed(ms, jobs, w, live, k);
      AfterLocal(ms, jobs, w, Some(live), k);
      WantedMember(jobs, k);
      LandedJobDone(ms, jobs[k], live, after);
    }
  }

  lemma {:induction false} DriveIdle(ms: Mirrors, jobs: seq<Job>, listing: Option<Live>)
    requires forall k | 0 <= k < |jobs| ::
      Step(ms, jobs[k], listing) == ms && forall c | c in CallsOf(jobs[k], listing) :: c.Pause? || c.Resume?
    ensures Drive(ms, jobs, listing) == ms && forall c | c in JobCalls(jobs, listing) :: c.Pause? || c.Resume?
  {
    if jobs == [] {
    } else {
      var init := jobs[..|jobs| - 1];
      assert forall k | 0 <= k < |init| :: init[k] == jobs[k];
      DriveIdle(ms, init, listing);
    }
  }

  lemma PausedAlready(ms: Mirrors, name: string, paused: bool)
    requires WellFormed(ms) && Reserved(name) && forall i | i in View(ms, name) :: ms[i].paused == paused
    ensures SetPaused(ms, name, paused) == ms
  {
    assert forall i | i in ms && ms[i].name == name :: i in View(ms, name);
  }

  lemma SettledStep(ms: Mirrors, jobs: seq<Job>, w: Weather, listing: Option<Live>, k: nat)
    requires WellFormed(ms) && ReservedNames(jobs) && Settled(ms, jobs) && ListingFor(ms, w, listing) && k < |jobs|
    ensures Step(ms, jobs[k], listing) == ms && forall c | c in CallsOf(jobs[k], listing) :: c.Pause? || c.Resume?
  {
    var n := jobs[k].session.name;
    if !jobs[k].running {
      PausedAlready(ms, n, true);
    } else if listing.Some? && jobs[k].invalid.None? {
      PausedAlready(ms, n, false);
      assert n in Creatable(jobs);
      var i :| i in ms && ms[i].owned && ms[i].name == n;
      assert Reserved(n) && ListedName(i, ms[i]) in listing.value;
    }
  }

  /** Fixpoint: in the desired state a further reconcile, whatever fails in it, creates nothing,
      terminates nothing and changes nothing. */
  lemma SettledIsFixed(ms: Mirrors, jobs: seq<Job>, w: Weather, listing: Option<Live>)
    requires WellFormed(ms) && ReservedNames(jobs) && Settled(ms, jobs) && ListingFor(ms, w, listing)
    ensures After(ms, jobs, listing, w.terminate) == ms
    ensures forall c | c in JobCalls(jobs, listing) :: c.Pause? || c.Resume?
    ensures listing.Some? ==> Orphans(Wanted(jobs), listing.value) == {}
  {
    forall k | 0 <= k < |jobs|
      ensures Step(ms, jobs[k], listing) == ms && forall c | c in CallsOf(jobs[k], listing) :: c.Pause? || c.Resume?
    {
      SettledStep(ms, jobs, w, listing, k);
    }
    DriveIdle(ms, jobs, listing);
    if listing.Some? {
      forall n | n in listing.value ensures n in Wanted(jobs) {
        var i := listing.value[n].id;
        var k := WantedBy(jobs, ms[i].name);
        assert Reserved(jobs[k].session.name);
      }
    }
  }
}
