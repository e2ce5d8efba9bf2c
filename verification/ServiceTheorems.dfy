/** Every interleaving of overlapping reconciles and token refreshes over the published snapshot. */
module ServiceTheorems {
  import opened Model
  import opened SessionNames
  import opened Mutagen
  import opened SyncController
  import opened SyncTheorems
  import opened SyncSummaries
  import opened T3Status
  import opened Service

  /** Work in progress between two accesses to the published snapshot. */
  datatype Task =
    | Snapped(list: seq<Container>, previous: Published)
    | Ready(next: Published, sessions: seq<Session>)
    | Asking(id: string)
    | Answered(id: string, token: string)

  /** `issued` records every (container, token) pair a container has ever answered with. */
  datatype System = System(
    containers: Published,
    sessions: seq<Session>,
    tasks: map<nat, Task>,
    issued: set<(string, string)>)

  datatype Action =
    | Snapshot(p: nat, list: seq<Container>)
    | Compute(p: nat, cfg: Config, t3: T3World, weather: Weather, digest: Digest, listing: Option<Live>)
    | Publish(p: nat)
    | StartRefresh(p: nat, key: string)
    | Issue(p: nat, outcome: Result<string>)
    | Write(p: nat)

  /** Discovery lists containers with distinct identifiers and fills in neither T3 nor sync state. */
  ghost predicate Discovered(list: seq<Container>) {
    DistinctIds(list) && forall k | 0 <= k < |list| :: list[k].t3 == NO_T3 && list[k].sync == NO_SYNC
  }

  ghost predicate Enabled(s: System, a: Action) {
    match a
    case Snapshot(p, list) => p !in s.tasks && Discovered(list)
    case Compute(p, _, _, _, _, _) => p in s.tasks && s.tasks[p].Snapped?
    case Publish(p) => p in s.tasks && s.tasks[p].Ready?
    // A request reaches a container through a non-empty environment ID.
    case StartRefresh(p, k) => p !in s.tasks && k in s.containers && s.containers[k].t3.environmentId != ""
    case Issue(p, _) => p in s.tasks && s.tasks[p].Asking?
    case Write(p) => p in s.tasks && s.tasks[p].Answered?
  }

  /** The tokens that a reconcile obtains. */
  ghost function Obtained(list: seq<Container>, previous: Published, cfg: Config, t: T3World): set<(string, string)> {
    set k | 0 <= k < |list| && Issues(Carry(list[k], previous), cfg, t.probe(k)) && t.issue(k).Ok? ::
      (list[k].id, t.issue(k).value)
  }

  ghost function Step(s: System, a: Action): System {
    if !Enabled(s, a) then s
    else match a
      case Snapshot(p, list) => s.(tasks := s.tasks[p := Snapped(list, s.containers)])
      case Compute(p, cfg, t3, w, digest, listing) =>
        var task := s.tasks[p];
        var (next, sessions) := Computed(task.list, task.previous, cfg, t3, w, digest, listing);
        s.(tasks := s.tasks[p := Ready(next, sessions)],
           issued := s.issued + Obtained(task.list, task.previous, cfg, t3))
      case Publish(p) => System(s.tasks[p].next, s.tasks[p].sessions, s.tasks - {p}, s.issued)
      case StartRefresh(p, k) => s.(tasks := s.tasks[p := Asking(s.containers[k].id)])
      case Issue(p, outcome) =>
        if outcome.Err? then s.(tasks := s.tasks - {p})
        else s.(tasks := s.tasks[p := Answered(s.tasks[p].id, outcome.value)],
                issued := s.issued + {(s.tasks[p].id, outcome.value)})
      case Write(p) =>
        s.(containers := Refreshed(s.containers, s.tasks[p].id, s.tasks[p].token), tasks := s.tasks - {p})
  }

  ghost function Run(s: System, actions: seq<Action>): System {
    if actions == [] then s else Step(Run(s, actions[..|actions| - 1]), actions[|actions| - 1])
  }

  const START := System(map[], [], map[], {})

  // ---------------------------------------------------------------- the invariant

  /** The entry that a refresh leaves behind for a container that has vanished meanwhile. */
  predicate Stub(c: Container) {
    c == NO_CONTAINER.(t3 := NO_T3.(backendToken := c.t3.backendToken))
  }

  ghost predicate Consistent(cs: Published, sessions: seq<Session>) {
    && (forall k | k in cs :: cs[k].id == k || Stub(cs[k]))
    && (forall k | k in cs :: cs[k].sync.sessions == Count(Reported(sessions), k))
    && (forall i | 0 <= i < |sessions| :: sessions[i].containerId in cs)
    && (forall k | k in cs :: Backed(cs[k]))
  }

  ghost predicate TokensFrom(cs: Published, issued: set<(string, string)>) {
    forall k | k in cs && cs[k].t3.backendToken != "" :: (k, cs[k].t3.backendToken) in issued
  }

  ghost predicate TaskOk(task: Task, issued: set<(string, string)>) {
    match task
    case Snapped(list, previous) => Discovered(list) && TokensFrom(previous, issued)
    case Ready(next, sessions) => Consistent(next, sessions) && TokensFrom(next, issued)
    case Asking(_) => true
    case Answered(id, token) => (id, token) in issued
  }

  ghost predicate Inv(s: System) {
    && Consistent(s.containers, s.sessions) && TokensFrom(s.containers, s.issued)
    && forall p | p in s.tasks :: TaskOk(s.tasks[p], s.issued)
  }

  // ---------------------------------------------------------------- what a reconcile publishes

  lemma {:induction false} IndexMembers(cs: seq<Container>)
    requires DistinctIds(cs)
    ensures forall k | 0 <= k < |cs| :: cs[k].id in Index(cs) && Index(cs)[cs[k].id] == cs[k]
  {
    if cs == [] {
    } else {
      IndexMembers(cs[..|cs| - 1]);
    }
  }

  lemma {:induction false} IndexKey(cs: seq<Container>, id: string) returns (k: nat)
    requires id in Index(cs)
    ensures k < |cs| && cs[k].id == id
  {
    k := |cs| - 1;
    if cs[k].id != id {
      k := IndexKey(cs[..k], id);
    }
  }

  lemma PreparedIds(list: seq<Container>, previous: Published, cfg: Config, t: T3World)
    requires Discovered(list)
    ensures DistinctIds(Prepared(list, previous, cfg, t))
    ensures forall k | 0 <= k < |list| :: Prepared(list, previous, cfg, t)[k].id == list[k].id
  {
    forall k | 0 <= k < |list| ensures Prepared(list, previous, cfg, t)[k].id == list[k].id {
      ReconciledBacked(Carry(list[k], previous), cfg, t.probe(k), t.issue(k));
    }
  }

  /** The container at position `k` of a computed snapshot. */
  lemma ComputedAt(
    list: seq<Container>, previous: Published, cfg: Config, t: T3World, w: Weather, digest: Digest,
        listing: Option<Live>, k: nat)
    requires Discovered(list) && k < |list|
    ensures var (next, sessions) := Computed(list, previous, cfg, t, w, digest, listing);
            var c := Reconciled(Carry(list[k], previous), cfg, t.probe(k), t.issue(k));
            && c.id == list[k].id && list[k].id in next
            && next[list[k].id] == c.(sync := Summary(c, sessions, cfg.syncEnabled))
            && next[list[k].id].sync.sessions == Count(Reported(sessions), list[k].id)
            && Backed(next[list[k].id])
            && c.t3.backendToken ==
               (if Issues(Carry(list[k], previous), cfg, t.probe(k)) && t.issue(k).Ok? then t.issue(k).value
                else Carry(list[k], previous).t3.backendToken)
  {
    var cs := Prepared(list, previous, cfg, t);
    PreparedIds(list, previous, cfg, t);
    ReconciledBacked(Carry(list[k], previous), cfg, t.probe(k), t.issue(k));
    SummaryCounts(cs, cfg.syncEnabled, w, digest, listing, k);
    var sessions := Sessions(cs, cfg.syncEnabled, w, digest, listing);
    IndexMembers(Summarised(cs, sessions, cfg.syncEnabled));
    assert Summarised(cs, sessions, cfg.syncEnabled)[k].id == list[k].id;
  }

  lemma ComputedKeys(
    list: seq<Container>, previous: Published, cfg: Config, t: T3World, w: Weather, digest: Digest,
        listing: Option<Live>, id: string)
      returns (k: nat)
    requires Discovered(list) && id in Computed(list, previous, cfg, t, w, digest, listing).0
    ensures k < |list| && list[k].id == id
  {
    var cs := Prepared(list, previous, cfg, t);
    PreparedIds(list, previous, cfg, t);
    var done := Summarised(cs, Sessions(cs, cfg.syncEnabled, w, digest, listing), cfg.syncEnabled);
    k := IndexKey(done, id);
  }

  /** Every reported session belongs to a listed container. */
  lemma SessionOrigin(cs: seq<Container>, w: Weather, digest: Digest, listing: Option<Live>, i: nat) returns (c: nat)
    requires i < |Reports(Jobs(cs, w, digest), listing)|
    ensures c < |cs| && Reports(Jobs(cs, w, digest), listing)[i].containerId == cs[c].id
  {
    var jobs := Jobs(cs, w, digest);
    ReportsLength(jobs, listing);
    ReportsAt(jobs, listing, i);
    ReportKeepsSlot(jobs[i], listing);
    var k: nat;
    c, k := JobOrigin(cs, w, digest, i);
  }

  lemma ComputedConsistent(
    list: seq<Container>, previous: Published, cfg: Config, t: T3World, w: Weather, digest: Digest,
        listing: Option<Live>,
    issued: set<(string, string)>)
    requires Discovered(list) && TokensFrom(previous, issued)
    ensures var (next, sessions) := Computed(list, previous, cfg, t, w, digest, listing);
            Consistent(next, sessions) && TokensFrom(next, issued + Obtained(list, previous, cfg, t))
  {
    var (next, sessions) := Computed(list, previous, cfg, t, w, digest, listing);
    var all := issued + Obtained(list, previous, cfg, t);
    forall id | id in next
      ensures next[id].id == id && next[id].sync.sessions == Count(Reported(sessions), id) && Backed(next[id])
      ensures next[id].t3.backendToken != "" ==> (id, next[id].t3.backendToken) in all
    {
      var k := ComputedKeys(list, previous, cfg, t, w, digest, listing, id);
      ComputedAt(list, previous, cfg, t, w, digest, listing, k);
    }
    forall i | 0 <= i < |sessions| ensures sessions[i].containerId in next {
      var cs := Prepared(list, previous, cfg, t);
      PreparedIds(list, previous, cfg, t);
      var c := SessionOrigin(cs, w, digest, listing, i);
      ComputedAt(list, previous, cfg, t, w, digest, listing, c);
    }
  }

  lemma SameOwnJobs(c: Container, d: Container, ci: nat, w: Weather, digest: Digest)
    requires d.id == c.id && d.rule == c.rule && d.running == c.running && d.user == c.user
    ensures JobsOf(d, ci, w, digest) == JobsOf(c, ci, w, digest)
  {
    forall k | 0 <= k < |Syncs(c)| ensures JobsOf(d, ci, w, digest)[k] == JobsOf(c, ci, w, digest)[k] {}
  }

  /** The T3 side of a reconcile has no influence on what is synchronized. */
  lemma {:induction false} SyncIgnoresT3(
    list: seq<Container>, previous: Published, cfg: Config, t: T3World, w: Weather, digest: Digest)
    ensures Jobs(Prepared(list, previous, cfg, t), w, digest) == Jobs(list, w, digest)
  {
    var cs := Prepared(list, previous, cfg, t);
    if list == [] {
    } else {
      var n := |list| - 1;
      assert cs[..n] == Prepared(list[..n], previous, cfg, t);
      SyncIgnoresT3(list[..n], previous, cfg, t, w, digest);
      ReconciledRest(Carry(list[n], previous), cfg, t.probe(n), t.issue(n));
      assert cs[n].(t3 := list[n].t3) == list[n];
      SameOwnJobs(list[n], cs[n], n, w, digest);
    }
  }

  /** A reconcile publishes exactly the listed containers, each as it was discovered but for its T3 status and its
      summary; with syncing on one session for every configured entry, in order, and none with syncing off. */
  lemma PublishedWhole(
    list: seq<Container>, previous: Published, cfg: Config, t: T3World, w: Weather, digest: Digest,
    listing: Option<Live>)
    requires Discovered(list)
    ensures var (next, sessions) := Computed(list, previous, cfg, t, w, digest, listing);
            && (forall id :: id in next <==> exists k :: 0 <= k < |list| && list[k].id == id)
            && (forall k | 0 <= k < |list| ::
                  next[list[k].id].(t3 := NO_T3, sync := NO_SYNC) == list[k]
                  && next[list[k].id].sync.sessions == if cfg.syncEnabled then |Syncs(list[k])| else 0)
            && sessions == (if cfg.syncEnabled then Reports(Jobs(list, w, digest), listing) else [])
            && Reported(sessions) == (if cfg.syncEnabled then Slots(list) else [])
  {
    var (next, sessions) := Computed(list, previous, cfg, t, w, digest, listing);
    var cs := Prepared(list, previous, cfg, t);
    SyncIgnoresT3(list, previous, cfg, t, w, digest);
    if cfg.syncEnabled { OneSessionPerSlot(list, w, digest, listing); }
    forall k | 0 <= k < |list|
      ensures list[k].id in next && next[list[k].id].(t3 := NO_T3, sync := NO_SYNC) == list[k]
      ensures next[list[k].id].sync.sessions == if cfg.syncEnabled then |Syncs(list[k])| else 0
    {
      ComputedAt(list, previous, cfg, t, w, digest, listing, k);
      PreparedIds(list, previous, cfg, t);
      SummaryCounts(cs, cfg.syncEnabled, w, digest, listing, k);
    }
    forall id | id in next ensures exists k :: 0 <= k < |list| && list[k].id == id {
      var k := ComputedKeys(list, previous, cfg, t, w, digest, listing, id);
    }
  }

  // ---------------------------------------------------------------- the steps

  lemma {:induction false} NoSessionNoCount(sessions: seq<Session>, id: string)
    requires forall i | 0 <= i < |sessions| :: sessions[i].containerId != id
    ensures Count(Reported(sessions), id) == 0
  {
    if sessions == [] {
    } else {
      var init := sessions[..|sessions| - 1];
      NoSessionNoCount(init, id);
      var r := Reported(sessions);
      assert r[..|r| - 1] == Reported(init);
    }
  }

  /** A token write keeps the snapshot consistent, also when its container is gone. */
  lemma RefreshedConsistent(cs: Published, sessions: seq<Session>, id: string, token: string,
      issued: set<(string, string)>)
    requires Consistent(cs, sessions) && TokensFrom(cs, issued) && (id, token) in issued
    ensures Consistent(Refreshed(cs, id, token), sessions) && TokensFrom(Refreshed(cs, id, token), issued)
  {
    if id !in cs { NoSessionNoCount(sessions, id); }
  }

  /** A token write sets that token, also for a container that is gone, and nothing else. */
  lemma RefreshedExactly(cs: Published, id: string, token: string)
    ensures var next := Refreshed(cs, id, token);
            && id in next && next[id].t3.backendToken == token
            && next[id] == (if id in cs then cs[id].(t3 := next[id].t3) else NO_CONTAINER.(t3 := next[id].t3))
            && next[id].t3.(backendToken := "") == (if id in cs then cs[id].t3.(backendToken := "") else NO_T3)
            && (forall k | k != id :: k in next <==> k in cs)
            && (forall k | k in cs && k != id :: next[k] == cs[k])
  {}

  lemma TaskOkLater(task: Task, issued: set<(string, string)>, more: set<(string, string)>)
    requires TaskOk(task, issued) && issued <= more
    ensures TaskOk(task, more)
  {}

  lemma StepKeepsInv(s: System, a: Action)
    requires Inv(s)
    ensures Inv(Step(s, a))
  {
    if Enabled(s, a) {
      var t := Step(s, a);
      match a {
        case Compute(p, cfg, t3, w, digest, listing) =>
          assert TaskOk(s.tasks[p], s.issued);
          ComputedConsistent(s.tasks[p].list, s.tasks[p].previous, cfg, t3, w, digest, listing, s.issued);
        case Publish(p) =>
          assert TaskOk(s.tasks[p], s.issued);
        case Write(p) =>
          assert TaskOk(s.tasks[p], s.issued);
          RefreshedConsistent(s.containers, s.sessions, s.tasks[p].id, s.tasks[p].token, s.issued);
        case _ =>
      }
      forall q | q in t.tasks ensures TaskOk(t.tasks[q], t.issued) {
        if q in s.tasks && t.tasks[q] == s.tasks[q] { TaskOkLater(s.tasks[q], s.issued, t.issued); }
      }
    }
  }

  lemma {:induction false} RunKeepsInv(s: System, actions: seq<Action>)
    requires Inv(s)
    ensures Inv(Run(s, actions))
  {
    if actions == [] {
    } else {
      RunKeepsInv(s, actions[..|actions| - 1]);
      StepKeepsInv(Run(s, actions[..|actions| - 1]), actions[|actions| - 1]);
    }
  }

  // ---------------------------------------------------------------- what follows for every interleaving

  /** Every published entry counts exactly the published sessions that carry its key, every session's container is
      published, and every entry is either filed under its own identifier or an empty stub. */
  lemma SnapshotConsistent(actions: seq<Action>)
    ensures var s := Run(START, actions);
            && (forall k | k in s.containers :: s.containers[k].sync.sessions == Count(Reported(s.sessions), k))
            && (forall i | 0 <= i < |s.sessions| :: s.sessions[i].containerId in s.containers)
            && (forall k | k in s.containers :: s.containers[k].id == k ||
                  (s.containers[k].t3.environmentId == "" && s.containers[k].sync == NO_SYNC && Stub(s.containers[k])))
  {
    RunKeepsInv(START, actions);
  }

  /** A published token was issued by the container it is published for. */
  lemma TokenProvenance(actions: seq<Action>)
    ensures var s := Run(START, actions);
            forall k | k in s.containers && s.containers[k].t3.backendToken != "" ::
              (k, s.containers[k].t3.backendToken) in s.issued
  {
    RunKeepsInv(START, actions);
  }

  /** A request looks its environment up twice, possibly before and after a publication. The first lookup only lets
      non-empty identifiers pass; whatever the second one finds, in any reachable state, has a backend. */
  lemma RoutableIsBacked(actions: seq<Action>, envId: string, found: Option<Container>)
    requires envId != "" && Finds(Run(START, actions).containers, envId, found) && found.Some?
    ensures var c := found.value;
            && c.id in Run(START, actions).containers && Run(START, actions).containers[c.id] == c
            && c.t3.backendUrl != "" && c.t3.enabled && c.running
            && (c.t3.status == "ready" || c.t3.status == "ready-no-token")
  {
    RunKeepsInv(START, actions);
    var s := Run(START, actions);
    var k :| k in s.containers && s.containers[k] == found.value;
    assert !Stub(s.containers[k]);
  }

  /** What the first lookup finds, in any reachable state, is published under the identifier of its container: the
      key under which the environment's token is stored. */
  lemma EnvironmentIsPublished(actions: seq<Action>, envId: string, found: Option<Env>)
    requires FindsEnv(Run(START, actions).containers, envId, found) && found.Some?
    ensures var cs, id := Run(START, actions).containers, found.value.containerId;
            id in cs && cs[id].id == id && cs[id].t3.environmentId == envId != ""
  {
    RunKeepsInv(START, actions);
    var cs := Run(START, actions).containers;
    var k :| k in cs && cs[k].t3.environmentId == envId && cs[k].id == found.value.containerId;
    assert !Stub(cs[k]);
  }

  // ---------------------------------------------------------------- refreshes and reconciles in flight

  function TokenOf(cs: Published, id: string): string {
    if id in cs then cs[id].t3.backendToken else ""
  }

  /** The reconcile of this list, that snapshot and these answers obtains `token` for the container, or finds it in its
      snapshot and obtains none. */
  ghost predicate Brings(
    list: seq<Container>, previous: Published, cfg: Config, t: T3World, id: string, token: string)
  {
    exists k :: 0 <= k < |list| && list[k].id == id &&
      token == (if Issues(Carry(list[k], previous), cfg, t.probe(k)) && t.issue(k).Ok? then t.issue(k).value
                else TokenOf(previous, id))
  }

  lemma CarriedToken(c: Container, previous: Published)
    requires c.t3 == NO_T3
    ensures Carry(c, previous).t3.backendToken == TokenOf(previous, c.id)
  {}

  /** A refresh that falls between a reconcile's snapshot and its publication: whatever was written meanwhile, the
      token is there after the publication if and only if the reconcile brings that very token itself. A token that
      was not in the snapshot is therefore lost, with its stub, unless the container happens to issue it again. */
  lemma WrittenTokenSurvives(
    s: System, p: nat, cfg: Config, t3: T3World, w: Weather, digest: Digest, listing: Option<Live>,
    later: System, id: string, token: string)
    requires p in s.tasks && s.tasks[p].Snapped? && Discovered(s.tasks[p].list)
    requires p in later.tasks && later.tasks[p] == Step(s, Compute(p, cfg, t3, w, digest, listing)).tasks[p]
    requires token != "" && TokenOf(later.containers, id) == token
    ensures TokenOf(Step(later, Publish(p)).containers, id) == token <==>
            Brings(s.tasks[p].list, s.tasks[p].previous, cfg, t3, id, token)
  {
    var list, previous := s.tasks[p].list, s.tasks[p].previous;
    var next := Computed(list, previous, cfg, t3, w, digest, listing).0;
    assert Step(later, Publish(p)).containers == next;
    if id in next {
      var k := ComputedKeys(list, previous, cfg, t3, w, digest, listing, id);
      ComputedAt(list, previous, cfg, t3, w, digest, listing, k);
      CarriedToken(list[k], previous);
    }
    if k :| 0 <= k < |list| && list[k].id == id {
      ComputedAt(list, previous, cfg, t3, w, digest, listing, k);
      CarriedToken(list[k], previous);
      assert forall j | 0 <= j < |list| && list[j].id == id :: j == k;
    }
  }

  ghost predicate Reachable(e: System) {
    exists actions :: Run(START, actions) == e
  }

  lemma ReachableStep(e: System, a: Action)
    requires Reachable(e)
    ensures Reachable(Step(e, a))
  {
    var actions :| Run(START, actions) == e;
    assert (actions + [a])[..|actions|] == actions;
    assert Run(START, actions + [a]) == Step(e, a);
  }

  const SAMPLE := Container("box", true, "vscode", "10.0.0.2", "/work", None, NO_T3, NO_SYNC)
  const SAMPLE_CONFIG := Config(false, true, 3773, true, [])
  const SAMPLE_T3 := T3World((k: nat) => Ok("env"), (k: nat) => Ok("first"))

  /** The sample container is published, routable, with its first token. */
  ghost predicate Routable(cs: Published) {
    && SAMPLE.id in cs && cs[SAMPLE.id].id == SAMPLE.id && cs[SAMPLE.id].t3.environmentId == "env"
    && TokenOf(cs, SAMPLE.id) == "first"
  }

  /** A reconcile of the sample container obtains the first token, or keeps it. */
  lemma SampleComputed(previous: Published, w: Weather, digest: Digest)
    requires previous == map[] || Routable(previous)
    ensures Routable(Computed([SAMPLE], previous, SAMPLE_CONFIG, SAMPLE_T3, w, digest, None).0)
  {
    ComputedAt([SAMPLE], previous, SAMPLE_CONFIG, SAMPLE_T3, w, digest, None, 0);
    CarriedToken(SAMPLE, previous);
  }

  lemma SampleRound(w: Weather, digest: Digest) returns (e: System)
    ensures Reachable(e) && Routable(e.containers) && e.tasks == map[]
  {
    assert Run(START, []) == START;
    var compute := Compute(1, SAMPLE_CONFIG, SAMPLE_T3, w, digest, None);
    var snapped := START.(tasks := map[1 := Snapped([SAMPLE], map[])]);
    assert Step(START, Snapshot(1, [SAMPLE])) == snapped;
    ReachableStep(START, Snapshot(1, [SAMPLE]));
    ReachableStep(snapped, compute);
    SampleComputed(map[], w, digest);
    e := Step(Step(snapped, compute), Publish(1));
    ReachableStep(Step(snapped, compute), Publish(1));
  }

  /** A request refreshes the token of the sample container; other tasks are not disturbed. */
  lemma SampleRefresh(s: System) returns (e: System)
    requires Reachable(s) && Routable(s.containers) && 3 !in s.tasks
    ensures Reachable(e) && e.containers == Refreshed(s.containers, SAMPLE.id, "second") && e.tasks == s.tasks
  {
    var asking := s.(tasks := s.tasks[3 := Asking(SAMPLE.id)]);
    assert Step(s, StartRefresh(3, SAMPLE.id)) == asking;
    ReachableStep(s, StartRefresh(3, SAMPLE.id));
    var issued := s.issued + {(SAMPLE.id, "second")};
    var answered := System(s.containers, s.sessions, s.tasks[3 := Answered(SAMPLE.id, "second")], issued);
    assert Step(asking, Issue(3, Ok("second"))).tasks == answered.tasks;
    assert Step(asking, Issue(3, Ok("second"))) == answered;
    ReachableStep(asking, Issue(3, Ok("second")));
    e := Step(answered, Write(3));
    ReachableStep(answered, Write(3));
    assert answered.tasks - {3} == s.tasks;
  }

  lemma SampleLoss(s: System, previous: Published, w: Weather, digest: Digest)
    requires Reachable(s) && 2 in s.tasks && s.tasks[2] == Snapped([SAMPLE], previous) && Routable(previous)
    requires TokenOf(s.containers, SAMPLE.id) == "second"
    ensures var e := Step(s, Compute(2, SAMPLE_CONFIG, SAMPLE_T3, w, digest, None));
            && Reachable(e) && TokenOf(e.containers, SAMPLE.id) == "second"
            && TokenOf(Step(e, Publish(2)).containers, SAMPLE.id) == "first"
  {
    ReachableStep(s, Compute(2, SAMPLE_CONFIG, SAMPLE_T3, w, digest, None));
    SampleComputed(previous, w, digest);
  }

  /** A reachable loss: a reconcile has taken its snapshot, a request refreshes the token meanwhile, and the publication
      puts the old token back. */
  lemma LostTokenExample(w: Weather, digest: Digest)
    ensures exists e :: Reachable(e) && TokenOf(e.containers, SAMPLE.id) == "second"
                        && TokenOf(Step(e, Publish(2)).containers, SAMPLE.id) == "first"
  {
    var s := SampleRound(w, digest);
    var snapped := s.(tasks := map[2 := Snapped([SAMPLE], s.containers)]);
    assert Step(s, Snapshot(2, [SAMPLE])) == snapped;
    ReachableStep(s, Snapshot(2, [SAMPLE]));
    var written := SampleRefresh(snapped);
    SampleLoss(written, s.containers, w, digest);
  }

  // ---------------------------------------------------------------- serial reconciles keep their tokens

  /** A reconcile with nothing in between. */
  datatype Round = Round(
    list: seq<Container>, cfg: Config, t3: T3World, weather: Weather, digest: Digest, listing: Option<Live>)

  function RoundEnd(cs: Published, r: Round): Published {
    Computed(r.list, cs, r.cfg, r.t3, r.weather, r.digest, r.listing).0
  }

  function RoundsEnd(cs: Published, rounds: seq<Round>): Published
    decreases |rounds|
  {
    if rounds == [] then cs else RoundsEnd(RoundEnd(cs, rounds[0]), rounds[1..])
  }

  /** Position `k` of the round's list obtains a token. */
  predicate Obtains(cs: Published, r: Round, k: nat)
    requires k < |r.list|
  {
    Issues(Carry(r.list[k], cs), r.cfg, r.t3.probe(k)) && r.t3.issue(k).Ok?
  }

  /** How many rounds obtain a token for the container listed at `at[i]` in round `i`. */
  function Successes(cs: Published, rounds: seq<Round>, at: seq<nat>): nat
    requires |at| == |rounds| && forall i | 0 <= i < |at| :: at[i] < |rounds[i].list|
    decreases |rounds|
  {
    if rounds == [] then 0
    else (if Obtains(cs, rounds[0], at[0]) then 1 else 0) + Successes(RoundEnd(cs, rounds[0]), rounds[1..], at[1..])
  }

  /** While a container stays listed, through stops and starts and with no refresh, a token is obtained at most
      once, and never replaced once there is one. */
  lemma {:induction false} TokenStable(cs: Published, rounds: seq<Round>, at: seq<nat>, id: string)
    requires |at| == |rounds| && forall i | 0 <= i < |at| :: at[i] < |rounds[i].list| && rounds[i].list[at[i]].id == id
    requires forall i | 0 <= i < |rounds| :: Discovered(rounds[i].list)
    requires forall i | 0 <= i < |rounds| :: rounds[i].t3.issue(at[i]).Ok? ==> rounds[i].t3.issue(at[i]).value != ""
    ensures Successes(cs, rounds, at) <= 1
    ensures TokenOf(cs, id) != "" ==>
        Successes(cs, rounds, at) == 0 && TokenOf(RoundsEnd(cs, rounds), id) == TokenOf(cs, id)
    ensures Successes(cs, rounds, at) == 1 ==> TokenOf(RoundsEnd(cs, rounds), id) != ""
    decreases |rounds|
  {
    if rounds == [] {
    } else {
      var r, rest, later := rounds[0], rounds[1..], at[1..];
      ComputedAt(r.list, cs, r.cfg, r.t3, r.weather, r.digest, r.listing, at[0]);
      assert forall i | 0 <= i < |rest| :: rest[i] == rounds[i + 1] && later[i] == at[i + 1];
      TokenStable(RoundEnd(cs, r), rest, later, id);
    }
  }
}
