/** `Controller.Reconcile`: drive the daemon's sessions towards the configured ones. */
module SyncController {
  import opened Model
  import opened SessionNames
  import opened Mutagen

  datatype Kind = Missing | Directory | File | Other

  function KindText(k: Kind): string {
    match k
    case Missing => "missing"
    case Directory => "directory"
    case File => "file"
    case Other => "other"
  }

  /** What the two endpoint probes of one sync entry report. */
  datatype Probe = Probe(manager: Kind, container: Result<Kind>)

  /** Everything the outside world decides during one reconcile: whether the daemon can be
      listed, the health it reports, and per sync entry (container position, sync index) the
      probes, the fate of the one call it may cause and the identifier a creation would get. */
  datatype Weather = Weather(
    reachable: bool,
    health: string -> Health,
    probe: (nat, nat) -> Probe,
    fate: (nat, nat) -> Fate,
    newId: (nat, nat) -> string,
    terminate: string -> Fate)

  function ValidateEndpoints(entry: SyncEntry, p: Probe): Option<string> {
    match p.container
    case Err(e) => Some(e)
    case Ok(kind) =>
      if p.manager == Missing && kind == Missing then
        Some("both endpoints are missing: " + entry.manager + " and " + entry.container)
      else if p.manager != Missing && kind != Missing && p.manager != kind then
        Some("endpoint type mismatch: manager is " + KindText(p.manager) + ", container is " + KindText(kind))
      else
        None
  }

  /** Something of kind `k`, and nothing of another kind, is there at the two ends. */
  predicate OnlyKind(manager: Kind, container: Kind, k: Kind) {
    k != Missing && {manager, container} - {Missing} == {k}
  }

  /** The endpoints are valid exactly when the container's end could be probed and exactly one kind of thing is
      found. */
  lemma EndpointVerdict(entry: SyncEntry, p: Probe)
    ensures ValidateEndpoints(entry, p).None? <==>
        p.container.Ok? && exists k :: OnlyKind(p.manager, p.container.value, k)
  {
    if p.container.Ok? {
      var m, c := p.manager, p.container.value;
      assert forall k: Kind :: k in {m, c} - {Missing} <==> k != Missing && (k == m || k == c);
      if ValidateEndpoints(entry, p).None? {
        assert OnlyKind(m, c, if m != Missing then m else c);
      } else {
        forall k ensures !OnlyKind(m, c, k) {
          assert OnlyKind(m, c, k) ==> k in {m, c} - {Missing};
          assert m in {m, c} - {Missing} || c in {m, c} - {Missing} ==>
              m in {m, c} - {Missing} && c in {m, c} - {Missing};
        }
      }
    }
  }

  function DesiredSession(c: Container, rule: string, index: nat, entry: SyncEntry, digest: Digest): Session {
    var mode := FirstNonEmpty(entry.mode, "two-way");
    var name := SessionName(c.id, rule, index, entry, digest);
    var url := "docker://" + c.user + "@" + c.id + entry.container;
    var alpha := if mode == "pull" then url else entry.manager;
    var beta := if mode == "pull" then entry.manager else url;
    Session(name, name, c.id, rule, index, mode, alpha, beta, "desired", "")
  }

  /** Files flow from the manager's path, in "pull" mode towards it. The mode is not part of the session's name,
      so changing it leaves an existing session as it is. */
  lemma PullReverses(c: Container, rule: string, index: nat, entry: SyncEntry, mode: string, digest: Digest)
    requires mode != "pull"
    ensures var there := DesiredSession(c, rule, index, entry.(mode := mode), digest);
            var back := DesiredSession(c, rule, index, entry.(mode := "pull"), digest);
            && there.name == back.name && there.alpha == back.beta == entry.manager
            && there.beta == back.alpha == "docker://" + c.user + "@" + c.id + entry.container
            && there.mode == (if mode == "" then "two-way" else mode) && back.mode == "pull"
  {}

  /** One sync entry of one container, with the part of the weather that concerns it. */
  datatype Job = Job(session: Session, running: bool, invalid: Option<string>, fate: Fate, newId: string)

  function JobAt(c: Container, ci: nat, index: nat, w: Weather, digest: Digest): Job
    requires c.rule.Some? && index < |c.rule.value.syncs|
  {
    var entry := c.rule.value.syncs[index];
    Job(DesiredSession(c, c.rule.value.name, index, entry, digest), c.running,
        ValidateEndpoints(entry, w.probe(ci, index)), w.fate(ci, index), w.newId(ci, index))
  }

  function JobsUpTo(c: Container, ci: nat, n: nat, w: Weather, digest: Digest): seq<Job>
    requires n <= |Syncs(c)|
  {
    seq(n, k requires 0 <= k < n => JobAt(c, ci, k, w, digest))
  }

  lemma NextJob(c: Container, ci: nat, n: nat, w: Weather, digest: Digest)
    requires n < |Syncs(c)|
    ensures JobsUpTo(c, ci, n + 1, w, digest) == JobsUpTo(c, ci, n, w, digest) + [JobAt(c, ci, n, w, digest)]
  {}

  function JobsOf(c: Container, ci: nat, w: Weather, digest: Digest): seq<Job> {
    JobsUpTo(c, ci, |Syncs(c)|, w, digest)
  }

  /** The work list: containers in order, each one's sync entries in order. */
  function Jobs(cs: seq<Container>, w: Weather, digest: Digest): seq<Job> {
    if cs == [] then []
    else
      var n := |cs| - 1;
      Jobs(cs[..n], w, digest) + JobsOf(cs[n], n, w, digest)
  }

  function Wanted(jobs: seq<Job>): set<string> {
    if jobs == [] then {} else Wanted(jobs[..|jobs| - 1]) + {jobs[|jobs| - 1].session.name}
  }

  /** What one job does to the daemon. Without a listing nothing is touched. */
  function Step(ms: Mirrors, j: Job, listing: Option<Live>): Mirrors {
    if listing.None? || !Lands(j.fate) then ms
    else if !j.running then SetPaused(ms, j.session.name, true)
    else if j.invalid.Some? then ms
    else if j.session.name in listing.value then SetPaused(ms, j.session.name, false)
    else ms[j.newId := Mirror(j.session.name, true, false)]
  }

  function Drive(ms: Mirrors, jobs: seq<Job>, listing: Option<Live>): Mirrors {
    if jobs == [] then ms
    else Step(Drive(ms, jobs[..|jobs| - 1], listing), jobs[|jobs| - 1], listing)
  }

  function CallsOf(j: Job, listing: Option<Live>): seq<Call> {
    if listing.None? then []
    else if !j.running then [Call.Pause(j.session.name)]
    else if j.invalid.Some? then []
    else if j.session.name in listing.value then [Call.Resume(j.session.name)]
    else [Call.Create(j.session.name)]
  }

  function JobCalls(jobs: seq<Job>, listing: Option<Live>): seq<Call> {
    if jobs == [] then []
    else JobCalls(jobs[..|jobs| - 1], listing) + CallsOf(jobs[|jobs| - 1], listing)
  }

  /** The session that is reported for a job. */
  function Report(j: Job, listing: Option<Live>): Session {
    if !j.running then j.session.(status := "paused")
    else if j.invalid.Some? then j.session.(status := "configuration-error", error := j.invalid.value)
    else if listing.None? then
      j.session.(status := "mutagen-daemon-unavailable", error := "unable to connect to Mutagen daemon")
    else if j.session.name in listing.value then
      var existing := listing.value[j.session.name];
      j.session.(id := FirstNonEmpty(existing.id, j.session.id), status := FirstNonEmpty(existing.status, "ready"))
    else if ErrorOf(j.fate).Some? then
      j.session.(status := "create-error", error := ErrorOf(j.fate).value)
    else j.session.(status := "ready")
  }

  function Reports(jobs: seq<Job>, listing: Option<Live>): seq<Session> {
    if jobs == [] then []
    else Reports(jobs[..|jobs| - 1], listing) + [Report(jobs[|jobs| - 1], listing)]
  }

  function Target(e: LiveSession): string {
    FirstNonEmpty(e.id, e.name)
  }

  /** The selections by which listed but unwanted sessions are terminated. */
  function Orphans(names: set<string>, live: Live): set<string> {
    set n | n in live && n !in names && Target(live[n]) != "" :: Target(live[n])
  }

  /** Those of them whose termination takes effect. */
  function Doomed(names: set<string>, live: Live, terminate: string -> Fate): set<string> {
    set n | n in live && n !in names && Target(live[n]) != "" && Lands(terminate(n)) :: Target(live[n])
  }

  function After(ms: Mirrors, jobs: seq<Job>, listing: Option<Live>, terminate: string -> Fate): Mirrors {
    if listing.None? then ms
    else Without(Drive(ms, jobs, listing), Doomed(Wanted(jobs), listing.value, terminate))
  }

  ghost predicate ListingFor(ms: Mirrors, w: Weather, listing: Option<Live>) {
    && (listing.Some? <==> w.reachable)
    && (listing.Some? ==> IsListing(ms, w.health, listing.value))
  }

  function TerminateCalls(targets: set<string>): set<Call> {
    set t | t in targets :: Call.Terminate(t)
  }

  /** The calls a sweep may issue: one for every orphan, in some order. */
  ghost predicate SweepsOrphans(calls: seq<Call>, names: set<string>, listing: Option<Live>) {
    (set c | c in calls) == if listing.None? then {} else TerminateCalls(Orphans(names, listing.value))
  }

  /** The body of the inner loop: at most one call to the daemon, one reported session. */
  method ReconcileEntry(
      daemon: Daemon, c: Container, ci: nat, index: nat, listing: Option<Live>, w: Weather, digest: Digest)
      returns (session: Session, ghost job: Job)
    requires c.rule.Some? && index < |c.rule.value.syncs|
    modifies daemon
    ensures job == JobAt(c, ci, index, w, digest)
    ensures session == Report(job, listing) && session.name == job.session.name
    ensures daemon.sessions == Step(old(daemon.sessions), job, listing)
    ensures daemon.trace == old(daemon.trace) + CallsOf(job, listing)
  {
    job := JobAt(c, ci, index, w, digest);
    var entry := c.rule.value.syncs[index];
    var fate := w.fate(ci, index);
    session := DesiredSession(c, c.rule.value.name, index, entry, digest);
    if !c.running {
      session := session.(status := "paused");
      if listing.Some? {
        var _ := daemon.Pause(session.name, fate);
      }
      return;
    }
    var invalid := ValidateEndpoints(entry, w.probe(ci, index));
    if invalid.Some? {
      session := session.(status := "configuration-error", error := invalid.value);
      return;
    }
    if listing.None? {
      session := session.(status := "mutagen-daemon-unavailable", error := "unable to connect to Mutagen daemon");
      return;
    }
    if session.name in listing.value {
      var existing := listing.value[session.name];
      session := session.(id := FirstNonEmpty(existing.id, session.id),
                          status := FirstNonEmpty(existing.status, "ready"));
      var _ := daemon.Resume(session.name, fate);
      return;
    }
    var err := daemon.Create(session.name, w.newId(ci, index), fate);
    if err.Some? {
      session := session.(status := "create-error", error := err.value);
    } else {
      session := session.(status := "ready");
    }
  }

  /** The loops' common invariant: `jobs` have been reported, demanded, driven and issued. */
  ghost predicate Handled(
      jobs: seq<Job>, listing: Option<Live>, before: Mirrors, sessions: seq<Session>, names: set<string>,
      now: Mirrors, issued: seq<Call>)
  {
    && sessions == Reports(jobs, listing)
    && names == Wanted(jobs)
    && now == Drive(before, jobs, listing)
    && issued == JobCalls(jobs, listing)
  }

  lemma JobAppended(
      jobs: seq<Job>, j: Job, listing: Option<Live>, before: Mirrors, sessions: seq<Session>, names: set<string>,
      issued: seq<Call>)
    requires sessions == Reports(jobs, listing) && names == Wanted(jobs) && issued == JobCalls(jobs, listing)
    ensures Handled(jobs + [j], listing, before, sessions + [Report(j, listing)], names + {j.session.name},
                    Step(Drive(before, jobs, listing), j, listing), issued + CallsOf(j, listing))
  {
    var more := jobs + [j];
    assert more[..|jobs|] == jobs;
  }

  lemma Associative<T>(a: seq<T>, b: seq<T>, c: seq<T>)
    ensures a + b + c == a + (b + c)
  {}

  /** The inner loop: the sync entries of one container, in order. */
  method ReconcileEntries(daemon: Daemon, c: Container, ci: nat, listing: Option<Live>, w: Weather, digest: Digest)
      returns (sessions: seq<Session>, names: set<string>, ghost issued: seq<Call>)
    modifies daemon
    ensures Handled(JobsOf(c, ci, w, digest), listing, old(daemon.sessions), sessions, names, daemon.sessions, issued)
    ensures daemon.trace == old(daemon.trace) + issued
  {
    sessions, names, issued := [], {}, [];
    if c.rule.None? || |c.rule.value.syncs| == 0 { return; }
    for index := 0 to |c.rule.value.syncs|
      invariant Handled(JobsUpTo(c, ci, index, w, digest), listing, old(daemon.sessions), sessions, names,
          daemon.sessions, issued)
      invariant daemon.trace == old(daemon.trace) + issued
    {
      var session, job := ReconcileEntry(daemon, c, ci, index, listing, w, digest);
      NextJob(c, ci, index, w, digest);
      JobAppended(JobsUpTo(c, ci, index, w, digest), job, listing, old(daemon.sessions), sessions, names, issued);
      Associative(old(daemon.trace), issued, CallsOf(job, listing));
      sessions, names, issued := sessions + [session], names + {session.name}, issued + CallsOf(job, listing);
    }
  }

  /** Without a listing no job reaches the daemon. */
  lemma {:induction false} Untouched(ms: Mirrors, jobs: seq<Job>)
    ensures Drive(ms, jobs, None) == ms && JobCalls(jobs, None) == []
  {
    if jobs == [] {
    } else {
      Untouched(ms, jobs[..|jobs| - 1]);
    }
  }

  lemma {:induction false} ReportsAppended(jobs: seq<Job>, more: seq<Job>, listing: Option<Live>)
    ensures Reports(jobs + more, listing) == Reports(jobs, listing) + Reports(more, listing)
  {
    if more == [] {
      assert jobs + more == jobs;
    } else {
      var init, j := more[..|more| - 1], more[|more| - 1];
      ReportsAppended(jobs, init, listing);
      assert (jobs + more)[..|jobs + more| - 1] == jobs + init;
      Associative(Reports(jobs, listing), Reports(init, listing), [Report(j, listing)]);
    }
  }

  lemma {:induction false} CallsAppended(jobs: seq<Job>, more: seq<Job>, listing: Option<Live>)
    ensures JobCalls(jobs + more, listing) == JobCalls(jobs, listing) + JobCalls(more, listing)
  {
    if more == [] {
      assert jobs + more == jobs;
    } else {
      var init, j := more[..|more| - 1], more[|more| - 1];
      CallsAppended(jobs, init, listing);
      assert (jobs + more)[..|jobs + more| - 1] == jobs + init;
      Associative(JobCalls(jobs, listing), JobCalls(init, listing), CallsOf(j, listing));
    }
  }

  lemma {:induction false} DriveAppended(jobs: seq<Job>, more: seq<Job>, listing: Option<Live>, ms: Mirrors)
    ensures Wanted(jobs + more) == Wanted(jobs) + Wanted(more)
    ensures Drive(ms, jobs + more, listing) == Drive(Drive(ms, jobs, listing), more, listing)
  {
    if more == [] {
      assert jobs + more == jobs;
    } else {
      DriveAppended(jobs, more[..|more| - 1], listing, ms);
      assert (jobs + more)[..|jobs + more| - 1] == jobs + more[..|more| - 1];
    }
  }

  /** The work on a list is the work on its halves, one after the other. */
  lemma JobsAppended(jobs: seq<Job>, more: seq<Job>, listing: Option<Live>, ms: Mirrors)
    ensures Reports(jobs + more, listing) == Reports(jobs, listing) + Reports(more, listing)
    ensures Wanted(jobs + more) == Wanted(jobs) + Wanted(more)
    ensures Drive(ms, jobs + more, listing) == Drive(Drive(ms, jobs, listing), more, listing)
    ensures JobCalls(jobs + more, listing) == JobCalls(jobs, listing) + JobCalls(more, listing)
  {
    ReportsAppended(jobs, more, listing);
    CallsAppended(jobs, more, listing);
    DriveAppended(jobs, more, listing, ms);
  }

  lemma SweepOne(desired: set<string>, todo: set<string>, name: string, live: Live, terminate: string -> Fate)
    requires name in todo && name in live && name !in desired && Target(live[name]) != ""
    ensures var rest, landed := desired + (todo - {name}), Lands(terminate(name));
            && TerminateCalls(Orphans(rest, live)) ==
               TerminateCalls(Orphans(desired + todo, live)) + {Call.Terminate(Target(live[name]))}
            && Doomed(rest, live, terminate) ==
               Doomed(desired + todo, live, terminate) + if landed then {Target(live[name])} else {}
  {
    var rest := desired + (todo - {name});
    assert forall n :: n !in rest <==> n !in desired + todo || n == name;
    assert Orphans(rest, live) == Orphans(desired + todo, live) + {Target(live[name])};
  }

  lemma SkipOne(desired: set<string>, todo: set<string>, name: string, live: Live, terminate: string -> Fate)
    requires name in todo && name in live && (name in desired || Target(live[name]) == "")
    ensures Orphans(desired + (todo - {name}), live) == Orphans(desired + todo, live)
    ensures Doomed(desired + (todo - {name}), live, terminate) == Doomed(desired + todo, live, terminate)
  {
    var rest := desired + (todo - {name});
    assert forall n :: n !in rest ==> n !in desired + todo || n == name;
  }

  /** Terminates every listed session that nobody desires, in any order. */
  method Sweep(daemon: Daemon, live: Live, desired: set<string>, terminate: string -> Fate)
      returns (ghost calls: seq<Call>)
    modifies daemon
    ensures daemon.sessions == Without(old(daemon.sessions), Doomed(desired, live, terminate))
    ensures daemon.trace == old(daemon.trace) + calls
    ensures SweepsOrphans(calls, desired, Some(live))
  {
    calls := [];
    var todo := live.Keys;
    while todo != {}
      invariant todo <= live.Keys
      invariant daemon.sessions == Without(old(daemon.sessions), Doomed(desired + todo, live, terminate))
      invariant daemon.trace == old(daemon.trace) + calls
      invariant SweepsOrphans(calls, desired + todo, Some(live))
      decreases todo
    {
      var name :| name in todo;
      ghost var later := todo;
      todo := todo - {name};
      if name !in desired && Target(live[name]) != "" {
        var target := Target(live[name]);
        SweepOne(desired, later, name, live, terminate);
        var _ := daemon.Terminate(target, terminate(name));
        ghost var more := calls + [Call.Terminate(target)];
        assert (set c | c in more) == (set c | c in calls) + {Call.Terminate(target)};
        calls := more;
      } else {
        SkipOne(desired, later, name, live, terminate);
      }
    }
    assert desired + todo == desired;
  }

  /** The reconcile loop. Its effect on the daemon does not depend on the order in which
      the orphans are swept. */
  method Reconcile(daemon: Daemon, cs: seq<Container>, enabled: bool, w: Weather, digest: Digest)
      returns (sessions: seq<Session>, ghost listing: Option<Live>, ghost calls: seq<Call>)
    modifies daemon
    ensures !enabled ==> sessions == [] && daemon.sessions == old(daemon.sessions) && daemon.trace == old(daemon.trace)
    ensures enabled ==> ListingFor(old(daemon.sessions), w, listing)
    ensures enabled ==> sessions == Reports(Jobs(cs, w, digest), listing)
    ensures enabled ==> daemon.sessions == After(old(daemon.sessions), Jobs(cs, w, digest), listing, w.terminate)
    ensures enabled ==> daemon.trace == old(daemon.trace) + JobCalls(Jobs(cs, w, digest), listing) + calls
    ensures enabled ==> SweepsOrphans(calls, Wanted(Jobs(cs, w, digest)), listing)
  {
    sessions, listing, calls := [], None, [];
    if !enabled { return; }
    var live: Option<Live> := None;
    if w.reachable {
      var listed := daemon.ListOwned(w.health);
      live := Some(listed);
    }
    listing := live;
    ghost var before, trace := daemon.sessions, daemon.trace;
    var desiredNames: set<string> := {};
    ghost var issued: seq<Call> := [];
    for ci := 0 to |cs|
      invariant Handled(Jobs(cs[..ci], w, digest), live, before, sessions, desiredNames, daemon.sessions, issued)
      invariant daemon.trace == trace + issued
    {
      assert cs[..ci + 1][..ci] == cs[..ci];
      var more, names, called := ReconcileEntries(daemon, cs[ci], ci, live, w, digest);
      JobsAppended(Jobs(cs[..ci], w, digest), JobsOf(cs[ci], ci, w, digest), live, before);
      Associative(trace, issued, called);
      sessions, desiredNames, issued := sessions + more, desiredNames + names, issued + called;
    }
    assert cs[..|cs|] == cs;
    if live.Some? {
      calls := Sweep(daemon, live.value, desiredNames, w.terminate);
    } else {
      Untouched(before, Jobs(cs, w, digest));
    }
  }

  /** A reported session is for the name, the container and the index that were demanded. */
  lemma ReportKeepsSlot(j: Job, listing: Option<Live>)
    ensures var s := Report(j, listing);
            s.name == j.session.name && s.containerId == j.session.containerId && s.syncIndex == j.session.syncIndex
  {}
}
