/** `applySyncSummaries`: fold the reported sessions into one summary per container. */
module SyncSummaries {
  import opened Model
  import opened SessionNames
  import opened Mutagen
  import opened SyncController

  function Tally(sum: SyncSummary, s: Session): SyncSummary {
    var counted := sum.(sessions := sum.sessions + 1);
    if s.error != "" then counted.(status := "degraded", error := FirstNonEmpty(sum.error, s.error))
    else if s.status != "" && s.status != "ready" then counted.(status := s.status)
    else counted
  }

  function Fold(sessions: seq<Session>, id: string): SyncSummary {
    if sessions == [] then SyncSummary(true, "ready", 0, "")
    else
      var s := sessions[|sessions| - 1];
      var sum := Fold(sessions[..|sessions| - 1], id);
      if s.containerId == id then Tally(sum, s) else sum
  }

  function Summary(c: Container, sessions: seq<Session>, enabled: bool): SyncSummary {
    if !enabled || Syncs(c) == [] then SyncSummary(false, "disabled", 0, "")
    else
      var sum := Fold(sessions, c.id);
      if sum.sessions == 0 then sum.(status := "idle") else sum
  }

  function Summarised(cs: seq<Container>, sessions: seq<Session>, enabled: bool): seq<Container> {
    seq(|cs|, k requires 0 <= k < |cs| => cs[k].(sync := Summary(cs[k], sessions, enabled)))
  }

  method ApplySyncSummaries(containers: array<Container>, sessions: seq<Session>, enabled: bool)
    modifies containers
    ensures containers[..] == Summarised(old(containers[..]), sessions, enabled)
  {
    for index := 0 to containers.Length
      invariant forall k | 0 <= k < index ::
        containers[k] == old(containers[k]).(sync := Summary(old(containers[k]), sessions, enabled))
      invariant forall k | index <= k < containers.Length :: containers[k] == old(containers[k])
    {
      var c := containers[index];
      if !enabled || c.rule.None? || |c.rule.value.syncs| == 0 {
        containers[index] := c.(sync := SyncSummary(false, "disabled", 0, ""));
        continue;
      }
      var summary := SyncSummary(true, "ready", 0, "");
      for k := 0 to |sessions|
        invariant summary == Fold(sessions[..k], c.id)
      {
        assert sessions[..k + 1][..k] == sessions[..k];
        var session := sessions[k];
        if session.containerId != c.id { continue; }
        summary := summary.(sessions := summary.sessions + 1);
        if session.error != "" {
          summary := summary.(status := "degraded");
          if summary.error == "" {
            summary := summary.(error := session.error);
          }
        } else if session.status != "" && session.status != "ready" {
          summary := summary.(status := session.status);
        }
      }
      assert sessions[..|sessions|] == sessions;
      if summary.sessions == 0 {
        summary := summary.(status := "idle");
      }
      containers[index] := c.(sync := summary);
    }
  }

  // ---------------------------------------------------------------- what the fold means

  predicate Healthy(s: Session) {
    s.error == "" && (s.status == "" || s.status == "ready")
  }

  function Mark(s: Session): string {
    if s.error != "" then "degraded" else s.status
  }

  function Mine(sessions: seq<Session>, id: string): seq<Session> {
    if sessions == [] then []
    else
      var init, s := Mine(sessions[..|sessions| - 1], id), sessions[|sessions| - 1];
      if s.containerId == id then init + [s] else init
  }

  /** `k` is the position of the last session of `own` that is not healthy. */
  ghost predicate LastUnhealthy(own: seq<Session>, k: int) {
    && 0 <= k < |own| && !Healthy(own[k])
    && forall j | k < j < |own| :: Healthy(own[j])
  }

  ghost predicate FirstError(own: seq<Session>, k: int) {
    && 0 <= k < |own| && own[k].error != ""
    && forall j | 0 <= j < k :: own[j].error == ""
  }

  /** The status is "ready" exactly when every one of these sessions is healthy; otherwise it is set by the last one
      that is not. The error is the first one reported. */
  ghost predicate Means(sum: SyncSummary, own: seq<Session>) {
    && sum.sessions == |own|
    && (sum.status == "ready" <==> forall k | 0 <= k < |own| :: Healthy(own[k]))
    && (forall k | LastUnhealthy(own, k) :: sum.status == Mark(own[k]))
    && (sum.error == "" <==> forall k | 0 <= k < |own| :: own[k].error == "")
    && (forall k | FirstError(own, k) :: sum.error == own[k].error)
  }

  lemma ErrorMore(sum: SyncSummary, own: seq<Session>, s: Session)
    requires Means(sum, own)
    ensures var now, more := Tally(sum, s), own + [s];
            && (now.error == "" <==> forall k | 0 <= k < |more| :: more[k].error == "")
            && (forall k | FirstError(more, k) :: now.error == more[k].error)
  {
    var now, more := Tally(sum, s), own + [s];
    assert more[|own|] == s && forall k | 0 <= k < |own| :: more[k] == own[k];
    forall k | FirstError(more, k) ensures now.error == more[k].error {
      if k < |own| { assert FirstError(own, k); }
    }
  }

  lemma StatusMore(sum: SyncSummary, own: seq<Session>, s: Session)
    requires Means(sum, own)
    ensures var now, more := Tally(sum, s), own + [s];
            && (now.status == "ready" <==> forall k | 0 <= k < |more| :: Healthy(more[k]))
            && (forall k | LastUnhealthy(more, k) :: now.status == Mark(more[k]))
  {
    var now, more := Tally(sum, s), own + [s];
    assert more[|own|] == s && forall k | 0 <= k < |own| :: more[k] == own[k];
    forall k | LastUnhealthy(more, k) ensures now.status == Mark(more[k]) {
      if k < |own| {
        assert Healthy(more[|own|]);
        assert LastUnhealthy(own, k);
      }
    }
  }

  lemma TallyMeaning(sum: SyncSummary, own: seq<Session>, s: Session)
    requires Means(sum, own)
    ensures Means(Tally(sum, s), own + [s])
  {
    StatusMore(sum, own, s);
    ErrorMore(sum, own, s);
  }

  /** The fold over all sessions is the summary of the container's own ones. */
  lemma {:induction false} FoldMeaning(sessions: seq<Session>, id: string)
    ensures Means(Fold(sessions, id), Mine(sessions, id))
  {
    if sessions == [] {
    } else {
      var init, s := sessions[..|sessions| - 1], sessions[|sessions| - 1];
      FoldMeaning(init, id);
      if s.containerId == id {
        TallyMeaning(Fold(init, id), Mine(init, id), s);
      }
    }
  }

  // ---------------------------------------------------------------- conservation

  /** The (container, sync index) pairs that are configured, in order. */
  function SlotsOf(id: string, n: nat): seq<(string, nat)> {
    if n == 0 then [] else SlotsOf(id, n - 1) + [(id, n - 1)]
  }

  function Slots(cs: seq<Container>): seq<(string, nat)> {
    if cs == [] then []
    else Slots(cs[..|cs| - 1]) + SlotsOf(cs[|cs| - 1].id, |Syncs(cs[|cs| - 1])|)
  }

  function Reported(sessions: seq<Session>): seq<(string, nat)> {
    if sessions == [] then []
    else
      var s := sessions[|sessions| - 1];
      Reported(sessions[..|sessions| - 1]) + [(s.containerId, s.syncIndex)]
  }

  lemma ReportsMore(init: seq<Job>, j: Job, listing: Option<Live>)
    ensures Reported(Reports(init + [j], listing)) ==
            Reported(Reports(init, listing)) + [(Report(j, listing).containerId, Report(j, listing).syncIndex)]
  {
    assert (init + [j])[..|init|] == init;
    var r := Reports(init, listing) + [Report(j, listing)];
    assert r[..|r| - 1] == Reports(init, listing);
  }

  lemma {:induction false} EntriesReported(jobs: seq<Job>, id: string, listing: Option<Live>)
    requires forall k | 0 <= k < |jobs| :: jobs[k].session.containerId == id && jobs[k].session.syncIndex == k
    ensures Reported(Reports(jobs, listing)) == SlotsOf(id, |jobs|)
  {
    if jobs == [] {
    } else {
      var init, j := jobs[..|jobs| - 1], jobs[|jobs| - 1];
      EntriesReported(init, id, listing);
      ReportKeepsSlot(j, listing);
      ReportsMore(init, j, listing);
      assert jobs == init + [j];
    }
  }

  lemma JobSlot(c: Container, ci: nat, index: nat, w: Weather, digest: Digest)
    requires index < |Syncs(c)|
    ensures var s := JobAt(c, ci, index, w, digest).session; s.containerId == c.id && s.syncIndex == index
  {}

  lemma OwnSlots(c: Container, ci: nat, w: Weather, digest: Digest)
    ensures var own := JobsOf(c, ci, w, digest);
            && |own| == |Syncs(c)|
            && forall k | 0 <= k < |own| :: own[k].session.containerId == c.id && own[k].session.syncIndex == k
  {
    var own := JobsOf(c, ci, w, digest);
    forall k | 0 <= k < |own| ensures own[k].session.containerId == c.id && own[k].session.syncIndex == k {
      JobSlot(c, ci, k, w, digest);
    }
  }

  lemma {:induction false} ReportedAppended(a: seq<Session>, b: seq<Session>)
    ensures Reported(a + b) == Reported(a) + Reported(b)
  {
    if b == [] {
      assert a + b == a;
    } else {
      ReportedAppended(a, b[..|b| - 1]);
      assert (a + b)[..|a + b| - 1] == a + b[..|b| - 1];
    }
  }

  /** Whatever the daemon and the endpoints do, a reconcile reports exactly one session for every
      configured (container, sync index), in order. */
  lemma {:induction false} OneSessionPerSlot(cs: seq<Container>, w: Weather, digest: Digest, listing: Option<Live>)
    ensures Reported(Reports(Jobs(cs, w, digest), listing)) == Slots(cs)
  {
    if cs == [] {
    } else {
      var n := |cs| - 1;
      var before, own := Jobs(cs[..n], w, digest), JobsOf(cs[n], n, w, digest);
      OneSessionPerSlot(cs[..n], w, digest, listing);
      OwnSlots(cs[n], n, w, digest);
      EntriesReported(own, cs[n].id, listing);
      ReportsAppended(before, own, listing);
      ReportedAppended(Reports(before, listing), Reports(own, listing));
    }
  }

  function Count(slots: seq<(string, nat)>, id: string): nat {
    if slots == [] then 0
    else Count(slots[..|slots| - 1], id) + if slots[|slots| - 1].0 == id then 1 else 0
  }

  lemma {:induction false} FoldCounts(sessions: seq<Session>, id: string)
    ensures Fold(sessions, id).sessions == Count(Reported(sessions), id) && Fold(sessions, id).enabled
  {
    if sessions == [] {
    } else {
      var init := sessions[..|sessions| - 1];
      FoldCounts(init, id);
      var r := Reported(sessions);
      assert r[..|r| - 1] == Reported(init);
    }
  }

  lemma {:induction false} CountOwn(slots: seq<(string, nat)>, own: string, n: nat, id: string)
    ensures Count(slots + SlotsOf(own, n), id) == Count(slots, id) + if own == id then n else 0
  {
    if n == 0 {
      assert slots + SlotsOf(own, 0) == slots;
    } else {
      CountOwn(slots, own, n - 1, id);
      var all := slots + SlotsOf(own, n);
      assert all[..|all| - 1] == slots + SlotsOf(own, n - 1);
    }
  }

  lemma {:induction false} SlotsCount(cs: seq<Container>, id: string)
    requires DistinctIds(cs)
    ensures forall k | 0 <= k < |cs| && cs[k].id == id :: Count(Slots(cs), id) == |Syncs(cs[k])|
    ensures (forall k | 0 <= k < |cs| :: cs[k].id != id) ==> Count(Slots(cs), id) == 0
  {
    if cs == [] {
    } else {
      var n := |cs| - 1;
      SlotsCount(cs[..n], id);
      CountOwn(Slots(cs[..n]), cs[n].id, |Syncs(cs[n])|, id);
      assert forall k | 0 <= k < n :: cs[..n][k] == cs[k];
    }
  }

  /** A container is summarised as not synchronizing exactly when syncing is off or it has no sync entries. */
  lemma SummaryDisabled(c: Container, sessions: seq<Session>, enabled: bool)
    ensures var sum := Summary(c, sessions, enabled);
            && (sum.enabled <==> enabled && Syncs(c) != [])
            && (!sum.enabled <==> sum == SyncSummary(false, "disabled", 0, ""))
  {
    FoldCounts(sessions, c.id);
  }

  function Total(cs: seq<Container>): nat {
    if cs == [] then 0 else Total(cs[..|cs| - 1]) + cs[|cs| - 1].sync.sessions
  }

  /** The sessions that the reconcile hands to the summaries: none when syncing is off. */
  function Sessions(cs: seq<Container>, enabled: bool, w: Weather, digest: Digest, listing: Option<Live>)
    : seq<Session>
  {
    if enabled then Reports(Jobs(cs, w, digest), listing) else []
  }

  /** Conservation: every container's summary counts exactly its own published sessions, which with syncing on
      are its configured entries; an enabled summary is the plain fold, so the branch that sets "idle" is dead. */
  lemma SummaryCounts(cs: seq<Container>, enabled: bool, w: Weather, digest: Digest, listing: Option<Live>, k: nat)
    requires DistinctIds(cs) && k < |cs|
    ensures var sessions := Sessions(cs, enabled, w, digest, listing);
            var sum := Summarised(cs, sessions, enabled)[k].sync;
            && sum.sessions == Count(Reported(sessions), cs[k].id) == (if enabled then |Syncs(cs[k])| else 0)
            && (sum.enabled <==> enabled && Syncs(cs[k]) != [])
            && (sum.enabled ==> sum == Fold(sessions, cs[k].id))
  {
    var sessions := Sessions(cs, enabled, w, digest, listing);
    FoldCounts(sessions, cs[k].id);
    if enabled {
      OneSessionPerSlot(cs, w, digest, listing);
      SlotsCount(cs, cs[k].id);
    }
  }

  lemma {:induction false} SlotsLength(id: string, n: nat)
    ensures |SlotsOf(id, n)| == n
  {
    if n == 0 {
    } else {
      SlotsLength(id, n - 1);
    }
  }

  lemma {:induction false} SlotsTotal(cs: seq<Container>, done: seq<Container>)
    requires |done| == |cs| && forall k | 0 <= k < |cs| :: done[k].sync.sessions == |Syncs(cs[k])|
    ensures Total(done) == |Slots(cs)|
  {
    if cs == [] {
    } else {
      var n := |cs| - 1;
      SlotsTotal(cs[..n], done[..n]);
      SlotsLength(cs[n].id, |Syncs(cs[n])|);
    }
  }

  lemma {:induction false} ReportedLength(sessions: seq<Session>)
    ensures |Reported(sessions)| == |sessions|
  {
    if sessions == [] {
    } else {
      ReportedLength(sessions[..|sessions| - 1]);
    }
  }

  /** The summaries' counts add up to the number of sessions. */
  lemma SummaryTotal(cs: seq<Container>, w: Weather, digest: Digest, listing: Option<Live>)
    requires DistinctIds(cs)
    ensures var sessions := Sessions(cs, true, w, digest, listing);
            Total(Summarised(cs, sessions, true)) == |sessions|
  {
    var sessions := Sessions(cs, true, w, digest, listing);
    var done := Summarised(cs, sessions, true);
    forall k | 0 <= k < |cs| ensures done[k].sync.sessions == |Syncs(cs[k])| {
      SummaryCounts(cs, true, w, digest, listing, k);
    }
    OneSessionPerSlot(cs, w, digest, listing);
    SlotsTotal(cs, done);
    ReportedLength(sessions);
  }
}
