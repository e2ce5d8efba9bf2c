/** The command exchange that opens a T3 thread: an unreliable backend, one retry after a 401,
    and a refreshed token that later calls go on using. */
module SpawnStage {
  import opened Model

  /** A model selection; a project may carry none, one that does not decode, or one. */
  datatype Selection = Selection(instanceId: string, model: string)

  datatype RawSelection = Absent | Undecodable | Decoded(selection: Selection)

  datatype Project = Project(id: string, root: string, selection: RawSelection)

  datatype Command =
    | ProjectCreate(commandId: string, projectId: string, title: string, root: string, selection: Selection)
    | ThreadCreate(commandId: string, threadId: string, projectId: string, title: string, selection: Selection)
    | TurnStart(commandId: string, threadId: string, messageId: string, text: string, selection: Selection)

  datatype Request = GetSnapshot | Dispatch(command: Command)

  /** A reply that never arrives may still have been acted on. `body` is the decoded answer, if it decodes. */
  datatype Reply = Lost(applied: bool, error: string) | Status(code: int, applied: bool, body: Result<seq<Project>>)

  /** What was sent, and what the token refreshes returned, in order. */
  datatype Event = Attempt(token: string, request: Request) | Refresh(outcome: Result<string>)

  /** The backend and the token source answer arbitrarily, at every point of the exchange. */
  datatype World = World(
    answer: (nat, string, Request) -> Reply,
    refresh: nat -> Result<string>,
    canRefresh: bool,
    clean: string -> string)

  datatype Wire = Wire(events: seq<Event>, applied: seq<Command>)

  /** The random identifiers and the titles one spawn uses. */
  datatype Draws = Draws(
    project: string, projectCommand: string, thread: string, threadCommand: string, turnCommand: string,
    message: string, projectTitle: string, threadTitle: string)

  datatype Spawn = Spawn(agent: string, prompt: string, workspace: string)

  function ProviderInstance(agent: string): string {
    if agent == "claude" then "claudeAgent" else agent
  }

  function DefaultModel(agent: string): string {
    match agent
    case "claude" => "claude-sonnet-4-6"
    case "opencode" => "openai/gpt-5"
    case _ => "gpt-5.4"
  }

  /** An existing selection is kept if it is for the agent's own provider; otherwise the agent's default is taken. */
  function SelectionFor(agent: string, existing: RawSelection): (s: Selection)
    ensures s.instanceId == ProviderInstance(agent)
    ensures existing == Decoded(s) || s.model == DefaultModel(agent)
    ensures existing.Decoded? && existing.selection.instanceId == ProviderInstance(agent) ==> existing == Decoded(s)
  {
    if existing.Decoded? && existing.selection.instanceId == ProviderInstance(agent) then existing.selection
    else Selection(ProviderInstance(agent), DefaultModel(agent))
  }

  /** The selections of agents that bring none along. */
  lemma DefaultSelections(agent: string)
    ensures SelectionFor("claude", Absent) == Selection("claudeAgent", "claude-sonnet-4-6")
    ensures SelectionFor("opencode", Absent) == Selection("opencode", "openai/gpt-5")
    ensures agent != "claude" && agent != "opencode" ==> SelectionFor(agent, Absent) == Selection(agent, "gpt-5.4")
  {}

  /** `p`, at position `k`, is the first project with the workspace's cleaned root. */
  ghost predicate FirstMatch(projects: seq<Project>, workspace: string, clean: string -> string, k: int, p: Project) {
    && 0 <= k < |projects| && projects[k] == p && clean(p.root) == clean(workspace)
    && forall j | 0 <= j < k :: clean(projects[j].root) != clean(workspace)
  }

  function ProjectFor(projects: seq<Project>, workspace: string, clean: string -> string): (found: Option<Project>)
    ensures found.None? <==> forall p | p in projects :: clean(p.root) != clean(workspace)
    ensures found.Some? ==> exists k :: FirstMatch(projects, workspace, clean, k, found.value)
  {
    if projects == [] then None
    else if clean(projects[0].root) == clean(workspace) then
      assert FirstMatch(projects, workspace, clean, 0, projects[0]);
      Some(projects[0])
    else
      var rest := projects[1..];
      assert forall k, p | FirstMatch(rest, workspace, clean, k, p) :: FirstMatch(projects, workspace, clean, k + 1, p);
      ProjectFor(rest, workspace, clean)
  }

  // ---------------------------------------------------------------- one call

  function Sent(s: Wire, token: string, request: Request, w: World): (Wire, Reply) {
    var reply := w.answer(|s.events|, token, request);
    (Wire(s.events + [Attempt(token, request)],
          if request.Dispatch? && reply.applied then s.applied + [request.command] else s.applied), reply)
  }

  function Outcome(reply: Reply): Result<seq<Project>> {
    match reply
    case Lost(_, e) => Err(e)
    case Status(code, _, body) => if 200 <= code < 300 then body else Err("unexpected status")
  }

  predicate Unauthorized(reply: Reply) {
    reply.Status? && reply.code == 401
  }

  /** The call's effect, the token that later calls use, and its result. */
  function Exchanged(s: Wire, token: string, request: Request, w: World): (Wire, string, Result<seq<Project>>) {
    var (s1, reply) := Sent(s, token, request, w);
    if !Unauthorized(reply) || !w.canRefresh then (s1, token, Outcome(reply))
    else
      var outcome := w.refresh(|s1.events|);
      var s2 := s1.(events := s1.events + [Refresh(outcome)]);
      if outcome.Err? then (s2, token, Outcome(reply))
      else
        var (s3, again) := Sent(s2, outcome.value, request, w);
        (s3, outcome.value, Outcome(again))
  }

  // ---------------------------------------------------------------- the whole exchange

  function SelectionOf(q: Spawn, found: Option<Project>): Selection {
    SelectionFor(q.agent, if found.Some? then found.value.selection else Absent)
  }

  function ProjectId(found: Option<Project>, d: Draws): string {
    if found.Some? then found.value.id else "dcm-project-" + d.project
  }

  function ThreadId(d: Draws): string {
    "dcm-thread-" + d.thread
  }

  function CreateProject(q: Spawn, found: Option<Project>, d: Draws): Command {
    ProjectCreate("dcm-command-" + d.projectCommand, ProjectId(found, d), d.projectTitle, q.workspace,
        SelectionOf(q, found))
  }

  function CreateThread(q: Spawn, found: Option<Project>, d: Draws): Command {
    ThreadCreate("dcm-command-" + d.threadCommand, ThreadId(d), ProjectId(found, d), d.threadTitle,
        SelectionOf(q, found))
  }

  function StartTurn(q: Spawn, found: Option<Project>, d: Draws): Command {
    TurnStart("dcm-command-" + d.turnCommand, ThreadId(d), "dcm-message-" + d.message, q.prompt, SelectionOf(q, found))
  }

  /** The commands a spawn means to have applied, given the projects the backend listed. */
  function Plan(q: Spawn, projects: seq<Project>, d: Draws, clean: string -> string): seq<Command> {
    var found := ProjectFor(projects, q.workspace, clean);
    (if found.None? then [CreateProject(q, found, d)] else []) + [CreateThread(q, found, d), StartTurn(q, found, d)]
  }

  /** Dispatches commands in order until one fails. */
  function Dispatched(s: Wire, token: string, commands: seq<Command>, w: World): (Wire, Option<string>)
    decreases |commands|
  {
    if commands == [] then (s, None)
    else
      var (next, later, result) := Exchanged(s, token, Dispatch(commands[0]), w);
      if result.Err? then (next, Some(result.error)) else Dispatched(next, later, commands[1..], w)
  }

  function Opened(s: Wire, token: string, q: Spawn, d: Draws, w: World): (Wire, Result<string>) {
    var (listed, later, projects) := Exchanged(s, token, GetSnapshot, w);
    if projects.Err? then (listed, Err(projects.error))
    else
      var (end, err) := Dispatched(listed, later, Plan(q, projects.value, d, w.clean), w);
      (end, if err.Some? then Err(err.value) else Ok(ThreadId(d)))
  }

  lemma DispatchedFirst(s: Wire, token: string, first: Command, rest: seq<Command>, w: World)
    ensures var (next, later, result) := Exchanged(s, token, Dispatch(first), w);
            Dispatched(s, token, [first] + rest, w) ==
            if result.Err? then (next, Some(result.error)) else Dispatched(next, later, rest, w)
  {
    assert ([first] + rest)[1..] == rest;
  }

  class Backend {
    var wire: Wire

    method Send(token: string, request: Request, w: World) returns (reply: Reply)
      modifies this
      ensures (wire, reply) == Sent(old(wire), token, request, w)
    {
      reply := w.answer(|wire.events|, token, request);
      var applied := wire.applied;
      if request.Dispatch? && reply.applied {
        applied := applied + [request.command];
      }
      wire := Wire(wire.events + [Attempt(token, request)], applied);
    }

    /** `backendJSON`; `later` is what it leaves in `status.BackendToken`. */
    method BackendJson(token: string, request: Request, w: World) returns (later: string, result: Result<seq<Project>>)
      modifies this
      ensures (wire, later, result) == Exchanged(old(wire), token, request, w)
    {
      later := token;
      var reply := Send(token, request, w);
      if Unauthorized(reply) && w.canRefresh {
        var outcome := w.refresh(|wire.events|);
        wire := wire.(events := wire.events + [Refresh(outcome)]);
        if outcome.Ok? {
          later := outcome.value;
          reply := Send(outcome.value, request, w);
        }
      }
      if reply.Lost? { return later, Err(reply.error); }
      if reply.code < 200 || reply.code >= 300 { return later, Err("unexpected status"); }
      result := reply.body;
    }

    /** The last two commands: create the thread, then start its first turn. */
    method RunThread(
        token: string, projectId: string, selection: Selection, q: Spawn, ghost found: Option<Project>, d: Draws,
            w: World)
        returns (err: Option<string>)
      requires projectId == ProjectId(found, d) && selection == SelectionOf(q, found)
      modifies this
      ensures (wire, err) == Dispatched(old(wire), token, [CreateThread(q, found, d), StartTurn(q, found, d)], w)
    {
      var status := token;
      var thread := ThreadCreate("dcm-command-" + d.threadCommand, ThreadId(d), projectId, d.threadTitle, selection);
      var turn := TurnStart("dcm-command-" + d.turnCommand, ThreadId(d), "dcm-message-" + d.message, q.prompt,
          selection);
      DispatchedFirst(wire, status, thread, [turn], w);
      assert [thread] + [turn] == [CreateThread(q, found, d), StartTurn(q, found, d)];
      var created, started;
      status, created := BackendJson(status, Dispatch(thread), w);
      if created.Err? { return Some(created.error); }
      DispatchedFirst(wire, status, turn, [], w);
      assert [turn] + [] == [turn];
      status, started := BackendJson(status, Dispatch(turn), w);
      if started.Err? { return Some(started.error); }
      err := None;
    }

    method OpenStageThread(token: string, q: Spawn, d: Draws, w: World) returns (r: Result<string>)
      modifies this
      ensures (wire, r) == Opened(old(wire), token, q, d, w)
    {
      var status, projects := BackendJson(token, GetSnapshot, w);
      if projects.Err? { return Err(projects.error); }
      var found := ProjectFor(projects.value, q.workspace, w.clean);
      var selection := SelectionFor(q.agent, Absent);
      if found.Some? && found.value.selection != Absent {
        selection := SelectionFor(q.agent, found.value.selection);
      }
      ghost var listed, later := wire, status;
      ghost var plan := Plan(q, projects.value, d, w.clean);
      ghost var rest := [CreateThread(q, found, d), StartTurn(q, found, d)];
      assert plan == (if found.None? then [CreateProject(q, found, d)] else []) + rest;
      var projectId := ProjectId(found, d);
      if found.None? {
        var create := ProjectCreate("dcm-command-" + d.projectCommand, projectId, d.projectTitle, q.workspace,
            selection);
        var created;
        status, created := BackendJson(status, Dispatch(create), w);
        DispatchedFirst(listed, later, create, rest, w);
        if created.Err? { return Err(created.error); }
      } else {
        assert plan == rest;
      }
      assert Dispatched(listed, later, plan, w) == Dispatched(wire, status, rest, w);
      var err := RunThread(status, projectId, selection, q, found, d, w);
      if err.Some? { return Err(err.value); }
      r := Ok(ThreadId(d));
    }
  }
}
