/** When a call to the backend, and the whole spawn, succeed: read off the events and the backend's replies. */
module SpawnAnswers {
  import opened Model
  import opened SpawnStage
  import opened SpawnTheorems

  /** From position `from` on, attempt `n` is the last one with this request. */
  ghost predicate LastAttempt(events: seq<Event>, from: nat, request: Request, n: int) {
    && from <= n < |events| && events[n].Attempt? && events[n].request == request
    && forall m | n < m < |events| && events[m].Attempt? :: events[m].request != request
  }

  /** Attempt `n` was answered with a 2xx status and a body that decodes to `body`. */
  ghost predicate AnsweredWith(events: seq<Event>, n: int, w: World, body: seq<Project>) {
    && 0 <= n < |events| && events[n].Attempt?
    && var reply := w.answer(n, events[n].token, events[n].request);
       reply.Status? && 200 <= reply.code < 300 && reply.body == Ok(body)
  }

  /** The last attempt with this request was. */
  ghost predicate Answered(events: seq<Event>, from: nat, request: Request, w: World, body: seq<Project>) {
    exists n :: LastAttempt(events, from, request, n) && AnsweredWith(events, n, w, body)
  }

  /** One call: the events it adds are attempts with its own request and refreshes; it succeeds exactly when its last
      attempt was answered with a 2xx status and a body that decodes, and then returns that body. */
  lemma CallAnswer(s: Wire, token: string, request: Request, w: World)
    ensures var (e, _, result) := Exchanged(s, token, request, w);
            && |s.events| < |e.events| && e.events[..|s.events|] == s.events
            && (forall m | |s.events| <= m < |e.events| && e.events[m].Attempt? :: e.events[m].request == request)
            && (exists n :: LastAttempt(e.events, |s.events|, request, n))
            && forall body: seq<Project> :: result == Ok(body) <==> Answered(e.events, |s.events|, request, w, body)
  {
    var (e, _, result) := Exchanged(s, token, request, w);
    var n := |s.events|;
    var last := if |e.events| == n + 3 then n + 2 else n;
    assert |e.events| <= n + 3 && LastAttempt(e.events, n, request, last);
    forall body: seq<Project> ensures result == Ok(body) <==> AnsweredWith(e.events, last, w, body) {}
    forall m | LastAttempt(e.events, n, request, m) ensures m == last {}
  }

  // ---------------------------------------------------------------- the whole spawn

  /** What happens later, with other requests, does not change what a request was answered. */
  lemma AnsweredStays(events: seq<Event>, later: seq<Event>, from: nat, request: Request, w: World, body: seq<Project>)
    requires |events| <= |later| && later[..|events|] == events
    requires forall m | |events| <= m < |later| && later[m].Attempt? :: later[m].request != request
    ensures Answered(events, from, request, w, body) <==> Answered(later, from, request, w, body)
  {
    assert forall m | 0 <= m < |events| :: later[m] == events[m];
    forall n ensures LastAttempt(events, from, request, n) <==> LastAttempt(later, from, request, n) {}
    forall n | 0 <= n < |events| ensures AnsweredWith(events, n, w, body) <==> AnsweredWith(later, n, w, body) {}
  }

  /** What happened before `from` does not matter either. */
  lemma AnsweredFrom(events: seq<Event>, earlier: nat, from: nat, request: Request, w: World, body: seq<Project>)
    requires earlier <= from <= |events|
    requires forall m | earlier <= m < from && events[m].Attempt? :: events[m].request != request
    ensures Answered(events, earlier, request, w, body) <==> Answered(events, from, request, w, body)
  {
    forall n ensures LastAttempt(events, earlier, request, n) <==> LastAttempt(events, from, request, n) {}
  }

  ghost predicate CommandAnswered(events: seq<Event>, from: nat, c: Command, w: World) {
    exists body :: Answered(events, from, Dispatch(c), w, body)
  }

  lemma FirstAndRest(s: Wire, next: Wire, e: Wire, commands: seq<Command>, w: World, body: seq<Project>)
    requires commands != [] && commands[0] !in commands[1..]
    requires |s.events| <= |next.events| <= |e.events|
    requires next.events[..|s.events|] == s.events && e.events[..|next.events|] == next.events
    requires forall m | |s.events| <= m < |next.events| && next.events[m].Attempt? ::
               next.events[m].request == Dispatch(commands[0])
    requires forall m | |next.events| <= m < |e.events| && e.events[m].Attempt? ::
               e.events[m].request.Dispatch? && e.events[m].request.command in commands[1..]
    requires Answered(next.events, |s.events|, Dispatch(commands[0]), w, body)
    ensures e.events[..|s.events|] == s.events
    ensures forall m | |s.events| <= m < |e.events| && e.events[m].Attempt? ::
              e.events[m].request.Dispatch? && e.events[m].request.command in commands
    ensures (forall c | c in commands[1..] :: CommandAnswered(e.events, |next.events|, c, w))
            <==> (forall c | c in commands :: CommandAnswered(e.events, |s.events|, c, w))
  {
    var first, rest := commands[0], commands[1..];
    assert forall m | 0 <= m < |next.events| :: e.events[m] == next.events[m];
    assert forall c | c in commands :: c == first || c in rest;
    AnsweredStays(next.events, e.events, |s.events|, Dispatch(first), w, body);
    assert CommandAnswered(e.events, |s.events|, first, w);
    forall c | c in rest
      ensures CommandAnswered(e.events, |next.events|, c, w) <==> CommandAnswered(e.events, |s.events|, c, w)
    {
      forall b: seq<Project> { AnsweredFrom(e.events, |s.events|, |next.events|, Dispatch(c), w, b); }
    }
  }

  /** The dispatches add attempts with their own commands, and none fails exactly when the last attempt of every one of
      them was answered. */
  lemma {:induction false} DispatchAnswers(s: Wire, token: string, commands: seq<Command>, w: World)
    requires Distinct(commands)
    ensures var (e, err) := Dispatched(s, token, commands, w);
            && |s.events| <= |e.events| && e.events[..|s.events|] == s.events
            && (forall m | |s.events| <= m < |e.events| && e.events[m].Attempt? ::
                  e.events[m].request.Dispatch? && e.events[m].request.command in commands)
            && (err.None? <==> forall c | c in commands :: CommandAnswered(e.events, |s.events|, c, w))
    decreases |commands|
  {
    if commands == [] {
    } else {
      var c, rest := commands[0], commands[1..];
      var (next, later, result) := Exchanged(s, token, Dispatch(c), w);
      CallAnswer(s, token, Dispatch(c), w);
      if result.Err? {
        assert c in commands && !CommandAnswered(next.events, |s.events|, c, w);
      } else {
        assert Distinct(rest) && c !in rest by {
          assert forall i | 0 <= i < |rest| :: rest[i] == commands[i + 1];
        }
        DispatchAnswers(next, later, rest, w);
        FirstAndRest(s, next, Dispatched(next, later, rest, w).0, commands, w, result.value);
      }
    }
  }

  /** The plan for these projects is known, and the last attempts at all its commands were answered. */
  ghost predicate PlanAnswered(s: Wire, e: Wire, q: Spawn, d: Draws, w: World, projects: seq<Project>) {
    && Answered(e.events, |s.events|, GetSnapshot, w, projects)
    && forall c | c in Plan(q, projects, d, w.clean) :: CommandAnswered(e.events, |s.events|, c, w)
  }

  /** After the projects have been listed. */
  lemma ListedAnswer(s: Wire, listed: Wire, token: string, q: Spawn, d: Draws, w: World, projects: seq<Project>)
    requires |s.events| <= |listed.events| && listed.events[..|s.events|] == s.events
    requires forall m | |s.events| <= m < |listed.events| && listed.events[m].Attempt? ::
               listed.events[m].request == GetSnapshot
    requires forall b :: b == projects <==> Answered(listed.events, |s.events|, GetSnapshot, w, b)
    ensures var (e, err) := Dispatched(listed, token, Plan(q, projects, d, w.clean), w);
            && (forall b :: b == projects <==> Answered(e.events, |s.events|, GetSnapshot, w, b))
            && (err.None? <==> PlanAnswered(s, e, q, d, w, projects))
  {
    var plan := Plan(q, projects, d, w.clean);
    var e := Dispatched(listed, token, plan, w).0;
    PlanDistinct(q, projects, d, w.clean);
    DispatchAnswers(listed, token, plan, w);
    forall b: seq<Project>
      ensures Answered(listed.events, |s.events|, GetSnapshot, w, b) <==>
          Answered(e.events, |s.events|, GetSnapshot, w, b)
    {
      AnsweredStays(listed.events, e.events, |s.events|, GetSnapshot, w, b);
    }
    assert forall m | 0 <= m < |listed.events| :: e.events[m] == listed.events[m];
    forall c | c in plan
      ensures CommandAnswered(e.events, |listed.events|, c, w) <==> CommandAnswered(e.events, |s.events|, c, w)
    {
      forall b: seq<Project> { AnsweredFrom(e.events, |s.events|, |listed.events|, Dispatch(c), w, b); }
    }
  }

  /** The whole spawn succeeds exactly when the last attempt to list the projects was answered with a body that decodes,
      and so was the last attempt of every command of the plan for those projects. */
  lemma SpawnAnswer(s: Wire, token: string, q: Spawn, d: Draws, w: World)
    ensures var (e, r) := Opened(s, token, q, d, w);
            r.Ok? <==> exists projects :: PlanAnswered(s, e, q, d, w, projects)
  {
    var (listed, later, result) := Exchanged(s, token, GetSnapshot, w);
    CallAnswer(s, token, GetSnapshot, w);
    if result.Err? {
      assert forall projects :: !PlanAnswered(s, listed, q, d, w, projects);
    } else {
      var (e, err) := Dispatched(listed, later, Plan(q, result.value, d, w.clean), w);
      assert Opened(s, token, q, d, w) == (e, if err.Some? then Err(err.value) else Ok(ThreadId(d)));
      ListedAnswer(s, listed, later, q, d, w, result.value);
      assert forall projects :: PlanAnswered(s, e, q, d, w, projects) ==> projects == result.value;
    }
  }
}
