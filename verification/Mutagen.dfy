/** The Mutagen daemon as the manager sees it: sessions under unique identifiers,
    and calls that may fail before or after they take effect. */
module Mutagen {
  import opened Model

  /** One synchronization session; `owned` stands for the manager's ownership label. */
  datatype Mirror = Mirror(name: string, owned: bool, paused: bool)

  type Mirrors = map<string, Mirror>

  datatype Health = Watching | Faulted | Disconnected | Busy(phase: string)

  function StatusText(paused: bool, h: Health): string {
    if paused then "paused"
    else match h
      case Faulted => "error"
      case Watching => "ready"
      case Disconnected => "disconnected"
      case Busy(phase) => phase
  }

  datatype LiveSession = LiveSession(id: string, name: string, status: string)

  type Live = map<string, LiveSession>

  /** A selection names a session by its identifier or by its name. */
  predicate Selects(spec: string, id: string, m: Mirror) {
    id == spec || m.name == spec
  }

  function SetPaused(ms: Mirrors, spec: string, paused: bool): Mirrors {
    map i | i in ms :: if Selects(spec, i, ms[i]) then ms[i].(paused := paused) else ms[i]
  }

  function Without(ms: Mirrors, specs: set<string>): Mirrors {
    map i | i in ms && i !in specs && ms[i].name !in specs :: ms[i]
  }

  /** The name under which a session is listed: nameless ones go by identifier. */
  function ListedName(id: string, m: Mirror): string {
    FirstNonEmpty(m.name, id)
  }

  function Entry(id: string, m: Mirror, health: string -> Health): LiveSession {
    LiveSession(id, ListedName(id, m), StatusText(m.paused, health(id)))
  }

  /** `live` is a name-keyed collapse of the owned sessions `ids`. Which of several
      sessions sharing a name is kept depends on the order of the daemon's answer. */
  ghost predicate CollapseOf(ms: Mirrors, ids: set<string>, health: string -> Health, live: Live) {
    && (forall i | i in ids && i in ms && ms[i].owned :: ListedName(i, ms[i]) in live)
    && (forall n | n in live ::
          var i := live[n].id;
          i in ids && i in ms && ms[i].owned && n == ListedName(i, ms[i]) && live[n] == Entry(i, ms[i], health))
  }

  ghost predicate IsListing(ms: Mirrors, health: string -> Health, live: Live) {
    CollapseOf(ms, ms.Keys, health, live)
  }

  datatype Call = Pause(spec: string) | Resume(spec: string) | Create(spec: string) | Terminate(spec: string)

  class Daemon {
    var sessions: Mirrors
    var trace: seq<Call>  // every call issued to the daemon, in order

    method Pause(spec: string, fate: Fate) returns (err: Option<string>)
      modifies this
      ensures trace == old(trace) + [Call.Pause(spec)] && err == ErrorOf(fate)
      ensures sessions == if Lands(fate) then SetPaused(old(sessions), spec, true) else old(sessions)
    {
      trace := trace + [Call.Pause(spec)];
      if Lands(fate) { sessions := SetPaused(sessions, spec, true); }
      err := ErrorOf(fate);
    }

    method Resume(spec: string, fate: Fate) returns (err: Option<string>)
      modifies this
      ensures trace == old(trace) + [Call.Resume(spec)] && err == ErrorOf(fate)
      ensures sessions == if Lands(fate) then SetPaused(old(sessions), spec, false) else old(sessions)
    {
      trace := trace + [Call.Resume(spec)];
      if Lands(fate) { sessions := SetPaused(sessions, spec, false); }
      err := ErrorOf(fate);
    }

    method Create(name: string, id: string, fate: Fate) returns (err: Option<string>)
      modifies this
      ensures trace == old(trace) + [Call.Create(name)] && err == ErrorOf(fate)
      ensures sessions == if Lands(fate) then old(sessions)[id := Mirror(name, true, false)] else old(sessions)
    {
      trace := trace + [Call.Create(name)];
      if Lands(fate) { sessions := sessions[id := Mirror(name, true, false)]; }
      err := ErrorOf(fate);
    }

    method Terminate(spec: string, fate: Fate) returns (err: Option<string>)
      modifies this
      ensures trace == old(trace) + [Call.Terminate(spec)] && err == ErrorOf(fate)
      ensures sessions == if Lands(fate) then Without(old(sessions), {spec}) else old(sessions)
    {
      trace := trace + [Call.Terminate(spec)];
      if Lands(fate) { sessions := Without(sessions, {spec}); }
      err := ErrorOf(fate);
    }

    /** Collapses the owned sessions into a map keyed by listed name. */
    method ListOwned(health: string -> Health) returns (live: Live)
      ensures IsListing(sessions, health, live)
    {
      live := map[];
      var todo := sessions.Keys;
      while todo != {}
        invariant todo <= sessions.Keys
        invariant CollapseOf(sessions, sessions.Keys - todo, health, live)
        decreases todo
      {
        var id :| id in todo;
        todo := todo - {id};
        if sessions[id].owned {
          var entry := Entry(id, sessions[id], health);
          live := live[entry.name := entry];
        }
      }
    }
  }
}
