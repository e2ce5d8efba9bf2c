/** What the spawn exchange guarantees against every backend. */
module SpawnTheorems {
  import opened Model
  import opened SpawnStage

  /** The backend does not act on a request that it answers with 401. Lost replies and all other answers are
      unconstrained. */
  ghost predicate RejectsCleanly(w: World) {
    forall n, t, r :: Unauthorized(w.answer(n, t, r)) ==> !w.answer(n, t, r).applied
  }

  predicate Accepted(reply: Reply) {
    reply.Status? && 200 <= reply.code < 300
  }

  /** The backend has acted on a command that it accepts. */
  ghost predicate ActsOnAccepted(w: World) {
    forall n, t, c :: Accepted(w.answer(n, t, Dispatch(c))) ==> w.answer(n, t, Dispatch(c)).applied
  }

  /** One dispatched command is applied at most once, retry included, and once if the call succeeds and the backend
      acts on what it accepts. */
  lemma AppliedOnce(s: Wire, token: string, c: Command, w: World)
    requires RejectsCleanly(w)
    ensures var (e, _, result) := Exchanged(s, token, Dispatch(c), w);
            && (e.applied == s.applied || e.applied == s.applied + [c])
            && (ActsOnAccepted(w) && result.Ok? ==> e.applied == s.applied + [c])
  {}

  /** Exactly when one call applies its command twice: the backend acts on a request it answers with 401, the refresh
      succeeds, and the backend acts on the repeated request as well. */
  lemma AppliedTwice(s: Wire, token: string, c: Command, w: World)
    ensures var first, n := w.answer(|s.events|, token, Dispatch(c)), |s.events| + 1;
            Exchanged(s, token, Dispatch(c), w).0.applied == s.applied + [c] + [c] <==>
            && Unauthorized(first) && first.applied && w.canRefresh && w.refresh(n).Ok?
            && w.answer(n + 1, w.refresh(n).value, Dispatch(c)).applied
  {
    assert |s.applied + [c] + [c]| == |s.applied + [c]| + 1 == |s.applied| + 2;
  }

  lemma ReadsApplyNothing(s: Wire, token: string, w: World)
    ensures Exchanged(s, token, GetSnapshot, w).0.applied == s.applied
  {}

  ghost predicate PrefixApplied(before: seq<Command>, after: seq<Command>, commands: seq<Command>) {
    exists k :: 0 <= k <= |commands| && after == before + commands[..k]
  }

  lemma PrefixOfFirst(before: seq<Command>, commands: seq<Command>)
    ensures PrefixApplied(before, before, commands)
    ensures commands != [] ==> PrefixApplied(before, before + [commands[0]], commands)
  {
    assert before == before + commands[..0];
    if commands != [] { assert commands[..1] == [commands[0]]; }
  }

  lemma PrefixOfRest(before: seq<Command>, after: seq<Command>, commands: seq<Command>)
    requires commands != [] && PrefixApplied(before + [commands[0]], after, commands[1..])
    ensures PrefixApplied(before, after, commands)
  {
    var k :| 0 <= k <= |commands[1..]| && after == before + [commands[0]] + commands[1..][..k];
    assert commands[..k + 1] == [commands[0]] + commands[1..][..k];
    assert after == before + commands[..k + 1];
  }

  /** `after` is `before` followed by some of the commands, in order and each at most once. */
  ghost predicate SomeApplied(before: seq<Command>, after: seq<Command>, commands: seq<Command>)
    decreases |commands|
  {
    if commands == [] then after == before
    else SomeApplied(before, after, commands[1..]) || SomeApplied(before + [commands[0]], after, commands[1..])
  }

  ghost predicate Distinct(commands: seq<Command>) {
    forall i, j | 0 <= i < j < |commands| :: commands[i] != commands[j]
  }

  lemma {:induction false} NoneApplied(before: seq<Command>, commands: seq<Command>)
    ensures SomeApplied(before, before, commands)
    decreases |commands|
  {
    if commands == [] {
    } else {
      NoneApplied(before, commands[1..]);
    }
  }

  /** Whatever fails and whatever the backend accepts without acting on it: the dispatched commands are applied in
      order, each at most once. */
  lemma {:induction false} DispatchSome(s: Wire, token: string, commands: seq<Command>, w: World)
    requires RejectsCleanly(w)
    ensures SomeApplied(s.applied, Dispatched(s, token, commands, w).0.applied, commands)
    decreases |commands|
  {
    if commands == [] {
    } else {
      var (next, later, result) := Exchanged(s, token, Dispatch(commands[0]), w);
      AppliedOnce(s, token, commands[0], w);
      if result.Ok? {
        DispatchSome(next, later, commands[1..], w);
      } else {
        NoneApplied(next.applied, commands[1..]);
      }
    }
  }

  /** What was applied of distinct commands is distinct, and comes from them. */
  lemma {:induction false} SomeDistinct(before: seq<Command>, after: seq<Command>, commands: seq<Command>)
    requires SomeApplied(before, after, commands) && Distinct(commands)
    ensures |before| <= |after| && after[..|before|] == before && Distinct(after[|before|..])
    ensures forall c | c in after[|before|..] :: c in commands
    decreases |commands|
  {
    if commands == [] {
    } else {
      var c, rest := commands[0], commands[1..];
      assert Distinct(rest) && c !in rest by {
        assert forall i | 0 <= i < |rest| :: rest[i] == commands[i + 1];
      }
      if SomeApplied(before, after, rest) {
        SomeDistinct(before, after, rest);
      } else {
        SomeDistinct(before + [c], after, rest);
        assert after[..|before|] == (before + [c])[..|before|] == before;
        assert after[|before|..] == [c] + after[|before| + 1..];
      }
    }
  }

  lemma PlanDistinct(q: Spawn, projects: seq<Project>, d: Draws, clean: string -> string)
    ensures Distinct(Plan(q, projects, d, clean))
  {}

  /** Spawn at most once, against every backend that rejects cleanly: nothing is applied when the projects cannot be
      read, and otherwise the applied commands are some of the plan's, in order and none twice. */
  lemma SpawnAtMostOnce(s: Wire, token: string, q: Spawn, d: Draws, w: World)
    requires RejectsCleanly(w)
    ensures var (e, r) := Opened(s, token, q, d, w);
            var projects := Exchanged(s, token, GetSnapshot, w).2;
            if projects.Err? then r.Err? && e.applied == s.applied
            else
              var plan := Plan(q, projects.value, d, w.clean);
              && SomeApplied(s.applied, e.applied, plan)
              && |s.applied| <= |e.applied| && e.applied[..|s.applied|] == s.applied
              && Distinct(e.applied[|s.applied|..]) && forall c | c in e.applied[|s.applied|..] :: c in plan
  {
    var (listed, later, projects) := Exchanged(s, token, GetSnapshot, w);
    ReadsApplyNothing(s, token, w);
    if projects.Ok? {
      var plan := Plan(q, projects.value, d, w.clean);
      DispatchSome(listed, later, plan, w);
      PlanDistinct(q, projects.value, d, w.clean);
      SomeDistinct(s.applied, Dispatched(listed, later, plan, w).0.applied, plan);
    }
  }

  // ---------------------------------------------------------------- when it is a prefix, when it is everything

  /** No command is applied after one that was accepted without being acted on. */
  ghost predicate NoGap(s: Wire, token: string, commands: seq<Command>, w: World)
    decreases |commands|
  {
    commands == [] ||
    var (next, later, result) := Exchanged(s, token, Dispatch(commands[0]), w);
    result.Err? ||
    if next.applied == s.applied then Dispatched(next, later, commands[1..], w).0.applied == next.applied
    else NoGap(next, later, commands[1..], w)
  }

  /** No command is accepted without being acted on. */
  ghost predicate NoSkip(s: Wire, token: string, commands: seq<Command>, w: World)
    decreases |commands|
  {
    commands == [] ||
    var (next, later, result) := Exchanged(s, token, Dispatch(commands[0]), w);
    result.Err? || (next.applied != s.applied && NoSkip(next, later, commands[1..], w))
  }

  lemma {:induction false} NoSkipNoGap(s: Wire, token: string, commands: seq<Command>, w: World)
    requires NoSkip(s, token, commands, w)
    ensures NoGap(s, token, commands, w)
    decreases |commands|
  {
    if commands == [] {
    } else {
      var (next, later, result) := Exchanged(s, token, Dispatch(commands[0]), w);
      if result.Ok? { NoSkipNoGap(next, later, commands[1..], w); }
    }
  }

  lemma {:induction false} ActsMeansNoSkip(s: Wire, token: string, commands: seq<Command>, w: World)
    requires RejectsCleanly(w) && ActsOnAccepted(w)
    ensures NoSkip(s, token, commands, w)
    decreases |commands|
  {
    if commands == [] {
    } else {
      var (next, later, result) := Exchanged(s, token, Dispatch(commands[0]), w);
      AppliedOnce(s, token, commands[0], w);
      if result.Ok? { ActsMeansNoSkip(next, later, commands[1..], w); }
    }
  }

  /** A prefix of the commands that begins with the first one goes on with a prefix of the others. */
  lemma PrefixGoesOn(before: seq<Command>, after: seq<Command>, commands: seq<Command>)
    requires commands != [] && PrefixApplied(before, after, commands)
    requires |before| < |after|
    ensures PrefixApplied(before + [commands[0]], after, commands[1..])
  {
    var k :| 0 <= k <= |commands| && after == before + commands[..k];
    assert commands[..k] == [commands[0]] + commands[1..][..k - 1];
    assert after == before + [commands[0]] + commands[1..][..k - 1];
  }

  /** What follows a command that was skipped is no prefix, unless it is nothing. */
  lemma PrefixAfterSkip(before: seq<Command>, after: seq<Command>, commands: seq<Command>)
    requires commands != [] && Distinct(commands) && SomeApplied(before, after, commands[1..])
    ensures PrefixApplied(before, after, commands) <==> after == before
  {
    var c, rest := commands[0], commands[1..];
    PrefixOfFirst(before, commands);
    assert Distinct(rest) && c !in rest by {
      assert forall i | 0 <= i < |rest| :: rest[i] == commands[i + 1];
    }
    SomeDistinct(before, after, rest);
    forall k | 0 <= k <= |commands| ensures after == before + commands[..k] ==> k == 0 {
      if k > 0 {
        var skipped := before + commands[..k];
        assert skipped[|before|..] == commands[..k] && c in skipped[|before|..];
      }
    }
  }

  /** Against every backend that rejects cleanly, the applied commands are a prefix of the dispatched ones if and only
      if nothing was applied after a command that had been accepted without being acted on. */
  lemma {:induction false} DispatchPrefix(s: Wire, token: string, commands: seq<Command>, w: World)
    requires RejectsCleanly(w) && Distinct(commands)
    ensures PrefixApplied(s.applied, Dispatched(s, token, commands, w).0.applied, commands)
            <==> NoGap(s, token, commands, w)
    decreases |commands|
  {
    PrefixOfFirst(s.applied, commands);
    if commands == [] {
    } else {
      var (next, later, result) := Exchanged(s, token, Dispatch(commands[0]), w);
      AppliedOnce(s, token, commands[0], w);
      if result.Ok? {
        var rest, end := commands[1..], Dispatched(next, later, commands[1..], w).0.applied;
        assert Distinct(rest) by {
          assert forall i | 0 <= i < |rest| :: rest[i] == commands[i + 1];
        }
        DispatchSome(next, later, rest, w);
        SomeDistinct(next.applied, end, rest);
        if next.applied == s.applied {
          PrefixAfterSkip(s.applied, end, commands);
        } else {
          DispatchPrefix(next, later, rest, w);
          if PrefixApplied(s.applied, end, commands) { PrefixGoesOn(s.applied, end, commands); }
          if PrefixApplied(next.applied, end, rest) { PrefixOfRest(s.applied, end, commands); }
        }
      }
    }
  }

  lemma {:induction false} SomeLength(before: seq<Command>, after: seq<Command>, commands: seq<Command>)
    requires SomeApplied(before, after, commands)
    ensures |after| <= |before| + |commands|
    decreases |commands|
  {
    if commands == [] {
    } else if SomeApplied(before, after, commands[1..]) {
      SomeLength(before, after, commands[1..]);
    } else {
      SomeLength(before + [commands[0]], after, commands[1..]);
    }
  }

  /** When no command fails, all of them are applied if and only if none was accepted without being acted on. */
  lemma {:induction false} DispatchWhole(s: Wire, token: string, commands: seq<Command>, w: World)
    requires RejectsCleanly(w) && Dispatched(s, token, commands, w).1.None?
    ensures Dispatched(s, token, commands, w).0.applied == s.applied + commands <==> NoSkip(s, token, commands, w)
    decreases |commands|
  {
    if commands == [] {
    } else {
      var (next, later, result) := Exchanged(s, token, Dispatch(commands[0]), w);
      var rest, end := commands[1..], Dispatched(next, later, commands[1..], w).0.applied;
      AppliedOnce(s, token, commands[0], w);
      DispatchSome(next, later, rest, w);
      SomeLength(next.applied, end, rest);
      DispatchWhole(next, later, rest, w);
      assert s.applied + commands == s.applied + [commands[0]] + rest;
    }
  }

  /** The whole spawn, against every backend that rejects cleanly: the applied commands are a prefix of the plan if and
      only if there was no gap; and a spawn that succeeds names its thread, and has applied the whole plan if and only
      if no command was accepted without being acted on. */
  lemma SpawnExactly(s: Wire, token: string, q: Spawn, d: Draws, w: World)
    requires RejectsCleanly(w)
    ensures var (e, r) := Opened(s, token, q, d, w);
            var (listed, later, projects) := Exchanged(s, token, GetSnapshot, w);
            if projects.Err? then r.Err? && e.applied == s.applied
            else
              var plan := Plan(q, projects.value, d, w.clean);
              && Distinct(plan)
              && (PrefixApplied(s.applied, e.applied, plan) <==> NoGap(listed, later, plan, w))
              && (r.Ok? ==> r.value == ThreadId(d))
              && (r.Ok? ==> (e.applied == s.applied + plan <==> NoSkip(listed, later, plan, w)))
  {
    var (listed, later, projects) := Exchanged(s, token, GetSnapshot, w);
    ReadsApplyNothing(s, token, w);
    if projects.Ok? {
      var plan := Plan(q, projects.value, d, w.clean);
      PlanDistinct(q, projects.value, d, w.clean);
      DispatchPrefix(listed, later, plan, w);
      var (end, err) := Dispatched(listed, later, plan, w);
      assert Opened(s, token, q, d, w) == (end, if err.Some? then Err(err.value) else Ok(ThreadId(d)));
      if err.None? { DispatchWhole(listed, later, plan, w); }
    }
  }

  /** In particular, a backend that acts on what it accepts applies a prefix of the plan, and all of it on success. */
  lemma SpawnPrefix(s: Wire, token: string, q: Spawn, d: Draws, w: World)
    requires RejectsCleanly(w) && ActsOnAccepted(w)
    ensures var (e, r) := Opened(s, token, q, d, w);
            var projects := Exchanged(s, token, GetSnapshot, w).2;
            if projects.Err? then r.Err? && e.applied == s.applied
            else
              var plan := Plan(q, projects.value, d, w.clean);
              && PrefixApplied(s.applied, e.applied, plan) && Distinct(plan)
              && (r.Ok? ==> e.applied == s.applied + plan && r.value == ThreadId(d))
  {
    var (listed, later, projects) := Exchanged(s, token, GetSnapshot, w);
    SpawnExactly(s, token, q, d, w);
    if projects.Ok? {
      ActsMeansNoSkip(listed, later, Plan(q, projects.value, d, w.clean), w);
      NoSkipNoGap(listed, later, Plan(q, projects.value, d, w.clean), w);
    }
  }

  /** A backend that accepts everything, lists no project, and acts on every command but the creation of a project. */
  const FORGETFUL := World(
    (n: nat, token: string, r: Request) => Status(200, r.Dispatch? && !r.command.ProjectCreate?, Ok([])),
    (n: nat) => Err("no refresh"), false, (root: string) => root)

  /** It rejects cleanly, the spawn succeeds, and thread and turn are applied without the project: no prefix. */
  lemma GapExample(d: Draws)
    ensures RejectsCleanly(FORGETFUL)
    ensures var q := Spawn("codex", "p", "/w");
            var (e, r) := Opened(Wire([], []), "", q, d, FORGETFUL);
            && r.Ok? && e.applied == [CreateThread(q, None, d), StartTurn(q, None, d)]
            && !PrefixApplied([], e.applied, Plan(q, [], d, FORGETFUL.clean))
  {
    var q, w := Spawn("codex", "p", "/w"), FORGETFUL;
    var s0 := Wire([Attempt("", GetSnapshot)], []);
    assert Wire([], []).events + [Attempt("", GetSnapshot)] == s0.events;
    assert Exchanged(Wire([], []), "", GetSnapshot, w) == (s0, "", Ok([]));
    var project, thread, turn := CreateProject(q, None, d), CreateThread(q, None, d), StartTurn(q, None, d);
    assert Plan(q, [], d, w.clean) == [project] + [thread, turn];
    assert [thread, turn] == [thread] + [turn] && [turn] == [turn] + [];
    DispatchedFirst(s0, "", project, [thread, turn], w);
    var s1 := Exchanged(s0, "", Dispatch(project), w).0;
    DispatchedFirst(s1, "", thread, [turn], w);
    var s2 := Exchanged(s1, "", Dispatch(thread), w).0;
    DispatchedFirst(s2, "", turn, [], w);
    var plan := [project] + [thread, turn];
    forall k | 0 <= k <= |plan| ensures [thread, turn] != [] + plan[..k] {
      if k > 0 { assert plan[..k][0] == project; }
    }
  }

  /** The plan: a project is created exactly when no listed root matches; the thread goes to the first project that
      matches or to the one created, the turn to that thread; and every command selects the agent's own provider. */
  lemma PlanShape(q: Spawn, projects: seq<Project>, d: Draws, clean: string -> string)
    ensures 2 <= |Plan(q, projects, d, clean)| <= 3
    ensures var plan := Plan(q, projects, d, clean);
            var matches := exists p :: p in projects && clean(p.root) == clean(q.workspace);
            var thread, turn := plan[|plan| - 2], plan[|plan| - 1];
            && |plan| == (if matches then 2 else 3) && thread.ThreadCreate? && turn.TurnStart?
            && turn.threadId == thread.threadId == ThreadId(d) && turn.text == q.prompt
            && (!matches ==>
                  plan[0].ProjectCreate? && plan[0].root == q.workspace && thread.projectId == plan[0].projectId)
            && (matches ==> exists k, p :: FirstMatch(projects, q.workspace, clean, k, p) && thread.projectId == p.id)
            && forall c | c in plan :: c.selection.instanceId == ProviderInstance(q.agent)
  {
    var found := ProjectFor(projects, q.workspace, clean);
    if found.Some? {
      var k :| FirstMatch(projects, q.workspace, clean, k, found.value);
      assert found.value in projects;
    }
  }

  /** The project's own selection, when it is for the agent's provider. */
  predicate OwnSelection(p: Project, agent: string) {
    p.selection.Decoded? && p.selection.selection.instanceId == ProviderInstance(agent)
  }

  lemma FirstMatchUnique(projects: seq<Project>, workspace: string, clean: string -> string, k: int, p: Project)
    requires FirstMatch(projects, workspace, clean, k, p)
    ensures ProjectFor(projects, workspace, clean) == Some(p)
  {
    var found := ProjectFor(projects, workspace, clean);
    assert projects[k] in projects;
    var l :| FirstMatch(projects, workspace, clean, l, found.value);
    assert k == l;
  }

  /** Every command of the plan carries the selection of the project that was found, if it is for the agent's provider,
      and the agent's default otherwise; the titles and texts are those of the request. */
  lemma PlanSelection(q: Spawn, projects: seq<Project>, d: Draws, clean: string -> string)
    ensures var plan := Plan(q, projects, d, clean);
            && (forall k, p, c | FirstMatch(projects, q.workspace, clean, k, p) && OwnSelection(p, q.agent)
                && c in plan ::
                  c.selection == p.selection.selection)
            && ((forall k, p | FirstMatch(projects, q.workspace, clean, k, p) :: !OwnSelection(p, q.agent)) ==>
                  forall c | c in plan :: c.selection == Selection(ProviderInstance(q.agent), DefaultModel(q.agent)))
            && (forall c | c in plan && c.ProjectCreate? :: c.title == d.projectTitle)
            && (forall c | c in plan && c.ThreadCreate? :: c.title == d.threadTitle)
  {
    var found := ProjectFor(projects, q.workspace, clean);
    forall k, p | FirstMatch(projects, q.workspace, clean, k, p) ensures found == Some(p) {
      FirstMatchUnique(projects, q.workspace, clean, k, p);
    }
    if found.Some? {
      var k :| FirstMatch(projects, q.workspace, clean, k, found.value);
    }
  }

  // ---------------------------------------------------------------- tokens

  /** The token most recently obtained, or the one the run started with. */
  function Latest(token: string, events: seq<Event>): string {
    if events == [] then token
    else
      var e := events[|events| - 1];
      if e.Refresh? && e.outcome.Ok? then e.outcome.value else Latest(token, events[..|events| - 1])
  }

  /** Every attempt carries the most recently obtained token. */
  ghost predicate Threaded(token: string, events: seq<Event>) {
    forall i | 0 <= i < |events| && events[i].Attempt? :: events[i].token == Latest(token, events[..i])
  }

  function Refreshes(events: seq<Event>): nat {
    if events == [] then 0 else Refreshes(events[..|events| - 1]) + if events[|events| - 1].Refresh? then 1 else 0
  }

  function Attempts(events: seq<Event>): nat {
    if events == [] then 0 else Attempts(events[..|events| - 1]) + if events[|events| - 1].Attempt? then 1 else 0
  }

  lemma EventMore(token: string, events: seq<Event>, e: Event)
    ensures var more := events + [e];
            && Latest(token, more) == (if e.Refresh? && e.outcome.Ok? then e.outcome.value else Latest(token, events))
            && Refreshes(more) == Refreshes(events) + (if e.Refresh? then 1 else 0)
            && Attempts(more) == Attempts(events) + (if e.Attempt? then 1 else 0)
            && (Threaded(token, events) && (e.Attempt? ==> e.token == Latest(token, events)) ==> Threaded(token, more))
  {
    var more := events + [e];
    assert more[..|events|] == events;
    if Threaded(token, events) && (e.Attempt? ==> e.token == Latest(token, events)) {
      forall i | 0 <= i < |more| && more[i].Attempt? ensures more[i].token == Latest(token, more[..i]) {
        if i < |events| { assert more[..i] == events[..i] && more[i] == events[i]; }
      }
    }
  }

  /** One call: at most two attempts and one refresh, each attempt under the latest token, which is also what it
      leaves to later calls. */
  lemma ExchangeThreads(start: string, s: Wire, request: Request, w: World)
    requires Threaded(start, s.events)
    ensures var (e, later, _) := Exchanged(s, Latest(start, s.events), request, w);
            && Threaded(start, e.events) && later == Latest(start, e.events)
            && Attempts(s.events) < Attempts(e.events) <= Attempts(s.events) + 2
            && Refreshes(e.events) <= Refreshes(s.events) + 1
  {
    var token := Latest(start, s.events);
    var (s1, reply) := Sent(s, token, request, w);
    EventMore(start, s.events, Attempt(token, request));
    if Unauthorized(reply) && w.canRefresh {
      var outcome := w.refresh(|s1.events|);
      EventMore(start, s1.events, Refresh(outcome));
      if outcome.Ok? { EventMore(start, s1.events + [Refresh(outcome)], Attempt(outcome.value, request)); }
    }
  }

  lemma {:induction false} DispatchThreads(start: string, s: Wire, commands: seq<Command>, w: World)
    requires Threaded(start, s.events)
    ensures var e := Dispatched(s, Latest(start, s.events), commands, w).0;
            && Threaded(start, e.events)
            && Attempts(e.events) <= Attempts(s.events) + 2 * |commands|
            && Refreshes(e.events) <= Refreshes(s.events) + |commands|
    decreases |commands|
  {
    if commands == [] {
    } else {
      var (next, later, result) := Exchanged(s, Latest(start, s.events), Dispatch(commands[0]), w);
      ExchangeThreads(start, s, Dispatch(commands[0]), w);
      if result.Ok? { DispatchThreads(start, next, commands[1..], w); }
    }
  }

  /** The whole spawn: every attempt uses the token most recently obtained; at most four calls, hence at most
      eight attempts and four refreshes, whatever the backend answers. */
  lemma SpawnThreads(token: string, q: Spawn, d: Draws, w: World)
    ensures var e := Opened(Wire([], []), token, q, d, w).0;
            Threaded(token, e.events) && Attempts(e.events) <= 8 && Refreshes(e.events) <= 4
  {
    var s := Wire([], []);
    var (listed, later, projects) := Exchanged(s, token, GetSnapshot, w);
    ExchangeThreads(token, s, GetSnapshot, w);
    if projects.Ok? { DispatchThreads(token, listed, Plan(q, projects.value, d, w.clean), w); }
  }

  /** The backend accepts every token that a refresh returns. */
  ghost predicate AcceptsRefreshed(w: World) {
    forall n, k, r :: w.refresh(k).Ok? ==> !Unauthorized(w.answer(n, w.refresh(k).value, r))
  }

  /** `token` comes from a refresh. */
  ghost predicate FromRefresh(w: World, token: string) {
    exists k :: w.refresh(k) == Ok(token)
  }

  /** A call refreshes exactly when it is answered 401 and may refresh; if the refresh fails, so does the call. */
  lemma ExchangeCounts(s: Wire, token: string, request: Request, w: World)
    ensures var (e, later, result) := Exchanged(s, token, request, w);
            if Unauthorized(w.answer(|s.events|, token, request)) && w.canRefresh then
              var outcome := w.refresh(|s.events| + 1);
              && Refreshes(e.events) == Refreshes(s.events) + 1
              && later == (if outcome.Ok? then outcome.value else token) && (outcome.Err? ==> result.Err?)
            else Refreshes(e.events) == Refreshes(s.events) && later == token
  {
    var s1 := s.events + [Attempt(token, request)];
    var outcome := w.refresh(|s1|);
    EventMore(token, s.events, Attempt(token, request));
    EventMore(token, s1, Refresh(outcome));
    if outcome.Ok? { EventMore(token, s1 + [Refresh(outcome)], Attempt(outcome.value, request)); }
  }

  /** Once refreshed, never again; and a call that refreshes either fails or leaves a refreshed token. */
  lemma ExchangeRefreshes(s: Wire, token: string, request: Request, w: World)
    requires AcceptsRefreshed(w)
    ensures var (e, later, result) := Exchanged(s, token, request, w);
            && Refreshes(s.events) <= Refreshes(e.events) <= Refreshes(s.events) + 1
            && (FromRefresh(w, token) ==> Refreshes(e.events) == Refreshes(s.events) && later == token)
            && (Refreshes(e.events) != Refreshes(s.events) && result.Ok? ==> FromRefresh(w, later))
            && (Refreshes(e.events) == Refreshes(s.events) ==> later == token)
  {
    ExchangeCounts(s, token, request, w);
    if FromRefresh(w, token) {
      var k :| w.refresh(k) == Ok(token);
      assert !Unauthorized(w.answer(|s.events|, w.refresh(k).value, request));
    }
  }

  lemma {:induction false} DispatchRefreshes(s: Wire, token: string, commands: seq<Command>, w: World)
    requires AcceptsRefreshed(w)
    ensures var e := Dispatched(s, token, commands, w).0;
            && Refreshes(s.events) <= Refreshes(e.events) <= Refreshes(s.events) + 1
            && (FromRefresh(w, token) ==> Refreshes(e.events) == Refreshes(s.events))
    decreases |commands|
  {
    if commands == [] {
    } else {
      var (next, later, result) := Exchanged(s, token, Dispatch(commands[0]), w);
      ExchangeRefreshes(s, token, Dispatch(commands[0]), w);
      if result.Ok? { DispatchRefreshes(next, later, commands[1..], w); }
    }
  }

  /** If the backend accepts refreshed tokens, the whole spawn refreshes at most once. */
  lemma SpawnRefreshesOnce(token: string, q: Spawn, d: Draws, w: World)
    requires AcceptsRefreshed(w)
    ensures Refreshes(Opened(Wire([], []), token, q, d, w).0.events) <= 1
  {
    var s := Wire([], []);
    var (listed, later, projects) := Exchanged(s, token, GetSnapshot, w);
    ExchangeRefreshes(s, token, GetSnapshot, w);
    if projects.Ok? { DispatchRefreshes(listed, later, Plan(q, projects.value, d, w.clean), w); }
  }
}
