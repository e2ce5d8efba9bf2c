/** What one reconcile does to, and reports about, one sync entry of one container: stated on containers, endpoint
    probes and the daemon alone. */
module SyncOutcomes {
  import opened Model
  import opened SessionNames
  import opened Mutagen
  import opened SyncController
  import opened SyncTheorems
  import opened SyncRuns
  import opened SyncSummaries
  import opened SyncReports

  /** Every identifier that the daemon would mint is new and differs from the others. */
  ghost predicate FreshWeather(ms: Mirrors, cs: seq<Container>, w: Weather) {
    && (forall c: nat, i: nat | c < |cs| && i < |Syncs(cs[c])| :: FreshId(ms, w.newId(c, i)))
    && (forall c: nat, i: nat, d: nat, j: nat |
          c < |cs| && i < |Syncs(cs[c])| && d < |cs| && j < |Syncs(cs[d])| && (c != d || i != j) ::
          w.newId(c, i) != w.newId(d, j))
  }

  lemma {:induction false} FreshWeatherIds(ms: Mirrors, cs: seq<Container>, w: Weather, digest: Digest)
    requires FreshWeather(ms, cs, w)
    ensures FreshIds(ms, Jobs(cs, w, digest))
  {
    var jobs := Jobs(cs, w, digest);
    forall k | 0 <= k < |jobs| ensures FreshId(ms, jobs[k].newId) {
      var c, i := JobOrigin(cs, w, digest, k);
    }
    if cs == [] {
    } else {
      var n := |cs| - 1;
      var before := Jobs(cs[..n], w, digest);
      FreshWeatherIds(ms, cs[..n], w, digest);
      forall k, l | 0 <= k < l < |jobs| ensures jobs[k].newId != jobs[l].newId {
        if l < |before| {
          assert jobs[k] == before[k] && jobs[l] == before[l];
        } else {
          var c, i := JobOrigin(cs, w, digest, k);
          var d, j := JobOrigin(cs, w, digest, l);
        }
      }
    }
  }

  /** The name of an entry's session. */
  function EntryName(c: Container, index: nat, digest: Digest): string
    requires index < |Syncs(c)|
  {
    SessionName(c.id, c.rule.value.name, index, Syncs(c)[index], digest)
  }

  /** The container's end can be probed, and exactly one kind of thing is found at the two ends. */
  ghost predicate Usable(p: Probe) {
    p.container.Ok? && exists k :: OnlyKind(p.manager, p.container.value, k)
  }

  /** The job of an entry, and where it stands in the work list. */
  lemma EntryJob(cs: seq<Container>, w: Weather, digest: Digest, c: nat, index: nat) returns (k: nat)
    requires c < |cs| && index < |Syncs(cs[c])|
    ensures k < |Jobs(cs, w, digest)|
    ensures var j := Jobs(cs, w, digest)[k];
            && j == JobAt(cs[c], c, index, w, digest) && j.session.name == EntryName(cs[c], index, digest)
            && j.running == cs[c].running && j.fate == w.fate(c, index)
            && (j.invalid.None? <==> Usable(w.probe(c, index)))
  {
    k := JobOfEntry(cs, w, digest, c, index);
    EndpointVerdict(Syncs(cs[c])[index], w.probe(c, index));
  }

  lemma SteppedView(ms: Mirrors, end: Mirrors, j: Job, w: Weather, live: Live)
    requires WellFormed(ms) && ListingFor(ms, w, Some(live)) && Lands(j.fate) && Reserved(j.session.name)
    requires View(end, j.session.name) == Step(View(ms, j.session.name), j, Some(live))
    ensures var name := j.session.name;
            if !j.running then forall i | i in end && end[i].name == name :: end[i].paused
            else if j.invalid.None? then
              Mirrored(end, name) && forall i | i in end && end[i].name == name && end[i].owned :: !end[i].paused
            else View(end, name) == View(ms, name)
  {
    var name := j.session.name;
    assert forall i | i in end && end[i].name == name :: i in View(end, name) && View(end, name)[i] == end[i];
    if j.running && j.invalid.None? {
      var i := if name in live then live[name].id else j.newId;
      if name in live {
        assert ms[i].owned && i in View(ms, name);
      } else {
        assert forall h | h in ms && ms[h].name == name && ms[h].owned :: ListedName(h, ms[h]) == name;
      }
      assert i in View(end, name) && end[i] == Mirror(name, true, false);
    }
  }

  /** What one reconcile makes of one entry whose call lands, whatever happens to the others: the sessions of a stopped
      container are paused; a usable entry of a running one has an owned session, and none of its owned sessions is
      paused; an entry that is not usable is left alone. */
  lemma EntryOutcome(ms: Mirrors, r: Round, digest: Digest, c: nat, index: nat)
    requires WellFormed(ms) && DistinctShortIds(r.containers) && FreshWeather(ms, r.containers, r.weather)
    requires r.enabled && r.listing.Some? && ListingFor(ms, r.weather, r.listing)
    requires c < |r.containers| && index < |Syncs(r.containers[c])| && Lands(r.weather.fate(c, index))
    ensures var name, end := EntryName(r.containers[c], index, digest), RoundEnd(ms, r, digest);
            if !r.containers[c].running then forall i | i in end && end[i].name == name :: end[i].paused
            else if Usable(r.weather.probe(c, index)) then
              Mirrored(end, name) && forall i | i in end && end[i].name == name && end[i].owned :: !end[i].paused
            else View(end, name) == View(ms, name)
  {
    var jobs, name, end := Demand(r, digest), EntryName(r.containers[c], index, digest), RoundEnd(ms, r, digest);
    FreshWeatherIds(ms, r.containers, r.weather, digest);
    NamesAreDistinct(r.containers, r.weather, digest);
    var k := EntryJob(r.containers, r.weather, digest, c, index);
    AfterLocal(ms, jobs, r.weather, r.listing, k);
    SteppedView(ms, end, jobs[k], r.weather, r.listing.value);
  }

  // ---------------------------------------------------------------- what is reported

  /** The session is the one reported for that entry. */
  predicate ReportOf(sessions: seq<Session>, c: Container, index: nat, s: Session) {
    s in sessions && s.containerId == c.id && s.syncIndex == index
  }

  lemma SlotReport(cs: seq<Container>, w: Weather, digest: Digest, listing: Option<Live>, c: nat, index: nat,
      s: Session)
    requires DistinctIds(cs) && c < |cs| && index < |Syncs(cs[c])|
    requires ReportOf(Reports(Jobs(cs, w, digest), listing), cs[c], index, s)
    ensures s == Report(JobAt(cs[c], c, index, w, digest), listing)
  {
    var jobs := Jobs(cs, w, digest);
    ReportsLength(jobs, listing);
    var k :| 0 <= k < |jobs| && Reports(jobs, listing)[k] == s;
    ReportsAt(jobs, listing, k);
    ReportKeepsSlot(jobs[k], listing);
    var d, i := JobOrigin(cs, w, digest, k);
    JobSlot(cs[d], d, i, w, digest);
  }

  /** The message about unusable endpoints: the probe's own, or one of ours, which is never empty. */
  predicate Explains(error: string, p: Probe) {
    if p.container.Err? then error == p.container.error else error != ""
  }

  lemma InvalidExplained(entry: SyncEntry, p: Probe)
    requires ValidateEndpoints(entry, p).Some?
    ensures Explains(ValidateEndpoints(entry, p).value, p)
  {}

  /** The report about an entry, in every weather and with or without a listing. */
  ghost predicate Tells(c: Container, p: Probe, fate: Fate, name: string, listing: Option<Live>, s: Session) {
    if !c.running then s.status == "paused" && s.error == ""
    else if !Usable(p) then s.status == "configuration-error" && Explains(s.error, p)
    else if listing.None? then s.status == "mutagen-daemon-unavailable" && s.error != ""
    else if name in listing.value then
      var live := listing.value[name];
      && s.error == "" && s.status == (if live.status == "" then "ready" else live.status)
      && (live.id != "" ==> s.id == live.id)
    else if fate.Succeeds? then s.status == "ready" && s.error == ""
    else s.status == "create-error" && s.error == fate.error
  }

  lemma ReportTells(c: Container, p: Probe, j: Job, listing: Option<Live>)
    requires j.running == c.running && (j.invalid.None? <==> Usable(p)) && j.session.error == ""
    requires j.invalid.Some? ==> Explains(j.invalid.value, p)
    ensures Tells(c, p, j.fate, j.session.name, listing, Report(j, listing))
  {}

  /** Every entry is reported, and whatever is reported for it says what was found: a stopped container, unusable
      endpoints, an unreachable daemon, the listed session's own status, or how the creation ended. */
  lemma ReportOutcome(cs: seq<Container>, w: Weather, digest: Digest, listing: Option<Live>, c: nat, index: nat)
    requires DistinctIds(cs) && c < |cs| && index < |Syncs(cs[c])|
    ensures var sessions, name := Reports(Jobs(cs, w, digest), listing), EntryName(cs[c], index, digest);
            && (exists s :: ReportOf(sessions, cs[c], index, s))
            && forall s | ReportOf(sessions, cs[c], index, s) ::
                 s.name == name && s.rule == cs[c].rule.value.name &&
                 Tells(cs[c], w.probe(c, index), w.fate(c, index), name, listing, s)
  {
    var jobs, entry, p := Jobs(cs, w, digest), Syncs(cs[c])[index], w.probe(c, index);
    var k := EntryJob(cs, w, digest, c, index);
    ReportsAt(jobs, listing, k);
    ReportKeepsSlot(jobs[k], listing);
    assert ReportOf(Reports(jobs, listing), cs[c], index, Report(jobs[k], listing));
    if jobs[k].invalid.Some? { InvalidExplained(entry, p); }
    ReportTells(cs[c], p, jobs[k], listing);
    forall s | ReportOf(Reports(jobs, listing), cs[c], index, s) ensures s == Report(jobs[k], listing) {
      SlotReport(cs, w, digest, listing, c, index, s);
    }
  }

  /** A status that counts as healthy in a report. */
  predicate Fine(status: string) {
    status == "" || status == "ready"
  }

  /** A listed session's status counts as healthy exactly when it is not paused and watches its files. */
  lemma FineListing(ms: Mirrors, w: Weather, live: Live, name: string)
    requires ListingFor(ms, w, Some(live)) && name in live
    ensures var i := live[name].id;
            i in ms && (Fine(live[name].status) <==>
              !ms[i].paused && (w.health(i).Watching? || (w.health(i).Busy? && Fine(w.health(i).phase))))
  {}

  lemma HealthyTold(c: Container, p: Probe, fate: Fate, name: string, live: Live, s: Session)
    requires Tells(c, p, fate, name, Some(live), s)
    ensures Healthy(s) <==>
            c.running && Usable(p) && if name in live then Fine(live[name].status) else fate.Succeeds?
  {}

  /** When an entry is reported as healthy, exactly: its container runs, its endpoints are usable, the daemon answers,
      and either the listed session is not paused and watches its files, or a new one was created without an error. */
  lemma HealthyExactly(
    ms: Mirrors, cs: seq<Container>, w: Weather, digest: Digest, live: Live, c: nat, index: nat, s: Session)
    requires DistinctIds(cs) && c < |cs| && index < |Syncs(cs[c])| && ListingFor(ms, w, Some(live))
    requires ReportOf(Reports(Jobs(cs, w, digest), Some(live)), cs[c], index, s)
    ensures var name := EntryName(cs[c], index, digest);
            Healthy(s) <==>
            && cs[c].running && Usable(w.probe(c, index))
            && if name in live then
                 var i := live[name].id;
                 i in ms && !ms[i].paused
                 && (w.health(i).Watching? || (w.health(i).Busy? && Fine(w.health(i).phase)))
               else w.fate(c, index).Succeeds?
  {
    var name := EntryName(cs[c], index, digest);
    ReportOutcome(cs, w, digest, Some(live), c, index);
    if name in live { FineListing(ms, w, live, name); }
    HealthyTold(cs[c], w.probe(c, index), w.fate(c, index), name, live, s);
  }
}
