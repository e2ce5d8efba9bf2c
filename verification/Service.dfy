/** The service's published snapshot: overlapping reconciles, token refreshes and request routing. */
module Service {
  import opened Model
  import opened SessionNames
  import opened Mutagen
  import opened SyncController
  import opened SyncSummaries
  import opened T3Status

  type Published = map<string, Container>

  /** The answers of the T3 side during one reconcile, per position in the container list. */
  datatype T3World = T3World(probe: nat -> Result<string>, issue: nat -> Result<string>)

  function Carry(c: Container, previous: Published): Container {
    if c.id in previous then c.(t3 := c.t3.(backendToken := previous[c.id].t3.backendToken)) else c
  }

  function Prepared(list: seq<Container>, previous: Published, cfg: Config, t: T3World): seq<Container> {
    seq(|list|, k requires 0 <= k < |list| => Reconciled(Carry(list[k], previous), cfg, t.probe(k), t.issue(k)))
  }

  /** The containers by identifier; a later one replaces an earlier one. */
  function Index(cs: seq<Container>): Published {
    if cs == [] then map[] else Index(cs[..|cs| - 1])[cs[|cs| - 1].id := cs[|cs| - 1]]
  }

  /** What one reconcile publishes for a container list, a snapshot and the answers of the world. */
  function Computed(
    list: seq<Container>, previous: Published, cfg: Config, t: T3World, w: Weather, digest: Digest,
        listing: Option<Live>)
    : (Published, seq<Session>)
  {
    var cs := Prepared(list, previous, cfg, t);
    var sessions := Sessions(cs, cfg.syncEnabled, w, digest, listing);
    (Index(Summarised(cs, sessions, cfg.syncEnabled)), sessions)
  }

  function Refreshed(containers: Published, id: string, token: string): Published {
    var current := if id in containers then containers[id] else NO_CONTAINER;
    containers[id := current.(t3 := current.t3.(backendToken := token))]
  }

  /** What a request knows of its environment: the identifier and that of the container, its key in the token store. */
  datatype Env = Env(id: string, containerId: string)

  /** `found` is the environment, with the container of one of its entries, if there is one and it has an identifier. */
  ghost predicate FindsEnv(cs: Published, envId: string, found: Option<Env>) {
    match found
    case Some(e) =>
      && e.id == envId != ""
      && exists k :: k in cs && cs[k].t3.environmentId == envId && cs[k].id == e.containerId
    case None => envId == "" || forall k | k in cs :: cs[k].t3.environmentId != envId
  }

  /** `found` is a container that serves the environment, if there is one. */
  ghost predicate Finds(cs: Published, envId: string, found: Option<Container>) {
    match found
    case Some(c) => c.t3.environmentId == envId && exists k :: k in cs && cs[k] == c
    case None => forall k | k in cs :: cs[k].t3.environmentId != envId
  }

  method Prepare(list: array<Container>, previous: Published, cfg: Config, t: T3World)
    modifies list
    ensures list[..] == Prepared(old(list[..]), previous, cfg, t)
  {
    for k := 0 to list.Length
      invariant forall i | 0 <= i < k ::
          list[i] == Reconciled(Carry(old(list[i]), previous), cfg, t.probe(i), t.issue(i))
      invariant forall i | k <= i < list.Length :: list[i] == old(list[i])
    {
      if list[k].id in previous {
        list[k] := list[k].(t3 := list[k].t3.(backendToken := previous[list[k].id].t3.backendToken));
      }
      ReconcileContainer(list, k, cfg, t.probe(k), t.issue(k));
      assert forall i | 0 <= i < list.Length :: list[i] == list[..][i];
    }
  }

  method BuildIndex(list: array<Container>) returns (next: Published)
    ensures next == Index(list[..])
  {
    next := map[];
    for k := 0 to list.Length
      invariant next == Index(list[..k])
    {
      assert list[..k + 1][..k] == list[..k];
      next := next[list[k].id := list[k]];
    }
    assert list[..list.Length] == list[..];
  }

  class State {
    var containers: Published
    var sessions: seq<Session>

    constructor ()
      ensures containers == map[] && sessions == []
    {
      containers, sessions := map[], [];
    }

    method Snapshot() returns (previous: Published)
      ensures previous == containers
    {
      previous := map[];
      var todo := containers.Keys;
      while todo != {}
        invariant todo <= containers.Keys && previous.Keys == containers.Keys - todo
        invariant forall id | id in previous :: previous[id] == containers[id]
        decreases todo
      {
        var id :| id in todo;
        todo := todo - {id};
        previous := previous[id := containers[id]];
      }
    }

    method Publish(next: Published, reported: seq<Session>)
      modifies this
      ensures containers == next && sessions == reported
    {
      containers, sessions := next, reported;
    }

    /** `reconcile` with nothing in between; `list` is what discovery returned and is filled in place. */
    method Reconcile(list: array<Container>, daemon: Daemon, cfg: Config, t: T3World, w: Weather, digest: Digest)
        returns (ghost listing: Option<Live>)
      modifies this, list, daemon
      ensures cfg.syncEnabled ==> ListingFor(old(daemon.sessions), w, listing)
      ensures (containers, sessions) == Computed(old(list[..]), old(containers), cfg, t, w, digest, listing)
      ensures daemon.sessions ==
        if cfg.syncEnabled
        then After(old(daemon.sessions), Jobs(Prepared(old(list[..]), old(containers), cfg, t), w, digest),
                   listing, w.terminate)
        else old(daemon.sessions)
    {
      var previous := Snapshot();
      Prepare(list, previous, cfg, t);
      var reported, listed, _ := SyncController.Reconcile(daemon, list[..], cfg.syncEnabled, w, digest);
      listing := listed;
      ApplySyncSummaries(list, reported, cfg.syncEnabled);
      var next := BuildIndex(list);
      Publish(next, reported);
    }

    /** The locked part of the refresh closure. */
    method WriteToken(id: string, token: string)
      modifies this`containers
      ensures containers == Refreshed(old(containers), id, token)
    {
      var current := NO_CONTAINER;
      if id in containers {
        current := containers[id];
      }
      current := current.(t3 := current.t3.(backendToken := token));
      containers := containers[id := current];
    }

    /** The environment of a request and the container behind it; one without an identifier is never found. */
    method Environment(envId: string) returns (found: Option<Env>)
      ensures FindsEnv(containers, envId, found)
    {
      var todo := containers.Keys;
      while todo != {}
        invariant todo <= containers.Keys
        invariant forall k | k in containers && k !in todo ::
          containers[k].t3.environmentId == "" || containers[k].t3.environmentId != envId
        decreases todo
      {
        var id :| id in todo;
        todo := todo - {id};
        if containers[id].t3.environmentId == "" { continue; }
        if containers[id].t3.environmentId == envId {
          return Some(Env(containers[id].t3.environmentId, containers[id].id));
        }
      }
      found := None;
    }

    /** Finds some container that serves an environment. */
    method ContainerByEnv(envId: string) returns (found: Option<Container>)
      ensures Finds(containers, envId, found)
    {
      var todo := containers.Keys;
      while todo != {}
        invariant todo <= containers.Keys
        invariant forall k | k in containers && k !in todo :: containers[k].t3.environmentId != envId
        decreases todo
      {
        var id :| id in todo;
        todo := todo - {id};
        if containers[id].t3.environmentId == envId {
          return Some(containers[id]);
        }
      }
      found := None;
    }
  }
}
