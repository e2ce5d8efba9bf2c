/** What the reported statuses say about the daemon. */
module SyncReports {
  import opened Model
  import opened SessionNames
  import opened Mutagen
  import opened SyncController
  import opened SyncTheorems
  import opened SyncRuns
  import opened SyncSummaries

  /** The daemon runs an owned session of that name. */
  ghost predicate Mirrored(ms: Mirrors, name: string) {
    exists i :: i in ms && ms[i] == Mirror(name, true, false)
  }

  /** A session that is reported as healthy is there, owned and not paused, once the reconcile is over; and a reported
      identifier other than the name is that of an owned session of the name. Whatever fails elsewhere. */
  lemma HealthyIsMirrored(ms: Mirrors, jobs: seq<Job>, w: Weather, listing: Option<Live>, k: nat)
    requires WellFormed(ms) && FreshIds(ms, jobs) && ReservedNames(jobs) && DistinctNames(jobs)
    requires ListingFor(ms, w, listing) && k < |jobs|
    ensures var r, after := Report(jobs[k], listing), After(ms, jobs, listing, w.terminate);
            && (Healthy(r) ==> Mirrored(after, jobs[k].session.name))
            && (r.id != jobs[k].session.id ==>
                  r.id in after && after[r.id].owned && after[r.id].name == jobs[k].session.name)
  {
    var j, r, after := jobs[k], Report(jobs[k], listing), After(ms, jobs, listing, w.terminate);
    var name := j.session.name;
    assert Reserved(name);
    if listing.Some? && j.running && j.invalid.None? {
      AfterLocal(ms, jobs, w, listing, k);
      if name in listing.value {
        var i := listing.value[name].id;
        assert i in View(ms, name) && i in View(after, name) && ms[i].owned;
        assert Healthy(r) ==> !ms[i].paused;
        assert Healthy(r) ==> after[i] == Mirror(name, true, false);
      } else if ErrorOf(j.fate).None? {
        assert j.newId in View(after, name);
        assert after[j.newId] == Mirror(name, true, false);
      }
    }
  }

  lemma {:induction false} MineHas(sessions: seq<Session>, id: string, k: nat) returns (m: nat)
    requires k < |sessions| && sessions[k].containerId == id
    ensures m < |Mine(sessions, id)| && Mine(sessions, id)[m] == sessions[k]
  {
    if k == |sessions| - 1 {
      m := |Mine(sessions, id)| - 1;
    } else {
      m := MineHas(sessions[..|sessions| - 1], id, k);
    }
  }

  /** A container whose summary says "ready" has all its sync entries mirrored by running sessions. */
  lemma ReadyMeansMirrored(
    ms: Mirrors, cs: seq<Container>, w: Weather, digest: Digest, listing: Option<Live>, c: nat, index: nat)
    requires WellFormed(ms) && DistinctShortIds(cs) && FreshIds(ms, Jobs(cs, w, digest)) && ListingFor(ms, w, listing)
    requires c < |cs| && index < |Syncs(cs[c])|
    requires Summary(cs[c], Reports(Jobs(cs, w, digest), listing), true).status == "ready"
    ensures Mirrored(After(ms, Jobs(cs, w, digest), listing, w.terminate),
                     SessionName(cs[c].id, cs[c].rule.value.name, index, Syncs(cs[c])[index], digest))
  {
    var jobs := Jobs(cs, w, digest);
    var sessions := Reports(jobs, listing);
    var k := JobOfEntry(cs, w, digest, c, index);
    assert jobs[k] == JobAt(cs[c], c, index, w, digest);
    ReportsAt(jobs, listing, k);
    ReportKeepsSlot(jobs[k], listing);
    var m := MineHas(sessions, cs[c].id, k);
    FoldMeaning(sessions, cs[c].id);
    NamesAreDistinct(cs, w, digest);
    HealthyIsMirrored(ms, jobs, w, listing, k);
  }
}
