/** Reconciles that overlap: the steps of any number of them, in any order, on listings that may be outdated. */
module SyncOverlaps {
  import opened Model
  import opened SessionNames
  import opened Mutagen
  import opened SyncController
  import opened SyncTheorems
  import opened SyncRuns

  /** What a reconcile does to the daemon at one moment: it handles one job on its listing, or ends one session. */
  datatype Event = Act(job: Job, listing: Live) | Kill(target: string)

  function Effect(ms: Mirrors, e: Event): Mirrors {
    match e
    case Act(j, listing) => Step(ms, j, Some(listing))
    case Kill(target) => Without(ms, {target})
  }

  function Played(ms: Mirrors, events: seq<Event>): Mirrors {
    if events == [] then ms else Effect(Played(ms, events[..|events| - 1]), events[|events| - 1])
  }

  /** The event is a creation that lands. */
  predicate Creates(e: Event) {
    e.Act? && e.job.running && e.job.invalid.None? && Lands(e.job.fate) && e.job.session.name !in e.listing
  }

  // ---------------------------------------------------------------- a reconcile on its own

  function Acts(jobs: seq<Job>, listing: Live): seq<Event> {
    seq(|jobs|, k requires 0 <= k < |jobs| => Act(jobs[k], listing))
  }

  function Kills(targets: seq<string>): seq<Event> {
    seq(|targets|, k requires 0 <= k < |targets| => Kill(targets[k]))
  }

  lemma {:induction false} ActsPlayed(ms: Mirrors, jobs: seq<Job>, listing: Live)
    ensures Played(ms, Acts(jobs, listing)) == Drive(ms, jobs, Some(listing))
  {
    if jobs == [] {
    } else {
      ActsPlayed(ms, jobs[..|jobs| - 1], listing);
      assert Acts(jobs, listing)[..|jobs| - 1] == Acts(jobs[..|jobs| - 1], listing);
    }
  }

  lemma WithoutBoth(ms: Mirrors, a: set<string>, b: set<string>)
    ensures Without(Without(ms, a), b) == Without(ms, a + b)
  {}

  lemma {:induction false} KillsPlayed(ms: Mirrors, before: seq<Event>, targets: seq<string>)
    ensures Played(ms, before + Kills(targets)) == Without(Played(ms, before), set t | t in targets)
  {
    if targets == [] {
      assert before + Kills(targets) == before;
    } else {
      var init, all := targets[..|targets| - 1], before + Kills(targets);
      KillsPlayed(ms, before, init);
      assert all[..|all| - 1] == before + Kills(init);
      assert (set t | t in targets) == (set t | t in init) + {targets[|targets| - 1]};
      WithoutBoth(Played(ms, before), set t | t in init, {targets[|targets| - 1]});
    }
  }

  /** The events of one reconcile in its own order, with the sweep in any order, are the reconcile. */
  lemma RoundPlayed(ms: Mirrors, r: Round, digest: Digest, targets: seq<string>)
    requires r.enabled && r.listing.Some?
    requires (set t | t in targets) == Doomed(Wanted(Demand(r, digest)), r.listing.value, r.weather.terminate)
    ensures Played(ms, Acts(Demand(r, digest), r.listing.value) + Kills(targets)) == RoundEnd(ms, r, digest)
  {
    ActsPlayed(ms, Demand(r, digest), r.listing.value);
    KillsPlayed(ms, Acts(Demand(r, digest), r.listing.value), targets);
  }

  // ---------------------------------------------------------------- any listing, however old

  /** A job acts on the listing its reconcile took, which an overlapping reconcile may have made stale. It keeps
      owned names unique unless it creates a session that the listing does not show but the daemon already has. */
  lemma StaleListing(ms: Mirrors, j: Job, stale: Live)
    requires WellFormed(ms) && FreshId(ms, j.newId) && Reserved(j.session.name) && UniqueOwned(ms)
    ensures UniqueOwned(Step(ms, j, Some(stale))) <==>
            !(Creates(Act(j, stale)) && j.session.name in OwnedNames(ms))
  {
    var now, name := Step(ms, j, Some(stale)), j.session.name;
    StepEvolves(ms, j, Some(stale));
    if name in OwnedNames(ms) {
      var i :| i in ms && ms[i].owned && ms[i].name == name;
      assert ListedName(i, ms[i]) == name && i != j.newId;
      if j.newId in now { assert ListedName(j.newId, now[j.newId]) == name && ListedName(i, now[i]) == name; }
    }
    forall i | i in now && i in ms
        ensures now[i].owned == ms[i].owned && ListedName(i, now[i]) == ListedName(i, ms[i]) {}
    forall i | i in ms && ms[i].owned && ListedName(i, ms[i]) == name ensures name in OwnedNames(ms) {}
  }

  /** Every creation gets an identifier that is new, and no name looks like an identifier. */
  ghost predicate FreshEvents(ms: Mirrors, events: seq<Event>) {
    && (forall i | 0 <= i < |events| && events[i].Act? ::
          FreshId(ms, events[i].job.newId) && Reserved(events[i].job.session.name))
    && (forall i, k | 0 <= i < k < |events| && events[i].Act? && events[k].Act? ::
          events[i].job.newId != events[k].job.newId)
  }

  function EventIds(events: seq<Event>): set<string> {
    if events == [] then {}
    else
      var e := events[|events| - 1];
      EventIds(events[..|events| - 1]) + if e.Act? then {e.job.newId} else {}
  }

  /** The sessions of a state are the first ones or have been created by these events. */
  ghost predicate Grown(ms: Mirrors, now: Mirrors, events: seq<Event>) {
    && (forall i | i in now && i in ms :: now[i].name == ms[i].name && now[i].owned == ms[i].owned)
    && (forall i | i in now && i !in ms :: Reserved(now[i].name) && i in EventIds(events))
  }

  lemma {:induction false} EventIdOf(events: seq<Event>, id: string) returns (k: nat)
    requires id in EventIds(events)
    ensures k < |events| && events[k].Act? && events[k].job.newId == id
  {
    k := |events| - 1;
    if !(events[k].Act? && events[k].job.newId == id) {
      k := EventIdOf(events[..k], id);
    }
  }

  lemma NextIdFresh(ms: Mirrors, events: seq<Event>)
    requires events != [] && FreshEvents(ms, events) && events[|events| - 1].Act?
    requires Grown(ms, Played(ms, events[..|events| - 1]), events[..|events| - 1])
    ensures FreshId(Played(ms, events[..|events| - 1]), events[|events| - 1].job.newId)
  {
    var init, id := events[..|events| - 1], events[|events| - 1].job.newId;
    assert FreshId(ms, id);
    if id in EventIds(init) {
      var k := EventIdOf(init, id);
      assert init[k] == events[k];
    }
  }

  lemma {:induction false} PlayedGrown(ms: Mirrors, events: seq<Event>)
    requires WellFormed(ms) && FreshEvents(ms, events)
    ensures WellFormed(Played(ms, events)) && Grown(ms, Played(ms, events), events)
  {
    if events == [] {
    } else {
      var init, e := events[..|events| - 1], events[|events| - 1];
      PlayedGrown(ms, init);
      if e.Act? {
        NextIdFresh(ms, events);
        StepEvolves(Played(ms, init), e.job, Some(e.listing));
      }
    }
  }

  /** The daemon as the first `i` events leave it. */
  function Along(ms: Mirrors, events: seq<Event>, i: nat): Mirrors
    requires i <= |events|
  {
    Played(ms, events[..i])
  }

  /** The event creates a session of a name that the daemon owns already. */
  ghost predicate Duplicates(ms: Mirrors, e: Event) {
    Creates(e) && e.job.session.name in OwnedNames(ms)
  }

  lemma UniqueAt(ms: Mirrors, events: seq<Event>, i: nat)
    requires WellFormed(ms) && FreshEvents(ms, events) && i < |events| && UniqueOwned(Along(ms, events, i))
    ensures UniqueOwned(Along(ms, events, i + 1)) <==> !Duplicates(Along(ms, events, i), events[i])
  {
    var upTo, e := events[..i + 1], events[i];
    assert upTo[..i] == events[..i];
    PlayedGrown(ms, events[..i]);
    if e.Act? {
      NextIdFresh(ms, upTo);
      StaleListing(Along(ms, events, i), e.job, e.listing);
    }
  }

  lemma {:induction false} NeverDuplicated(ms: Mirrors, events: seq<Event>, n: nat)
    requires WellFormed(ms) && UniqueOwned(ms) && FreshEvents(ms, events) && n <= |events|
    requires forall i | 0 <= i < |events| :: !Duplicates(Along(ms, events, i), events[i])
    ensures UniqueOwned(Along(ms, events, n))
  {
    if n == 0 {
      assert Along(ms, events, 0) == ms;
    } else {
      NeverDuplicated(ms, events, n - 1);
      UniqueAt(ms, events, n - 1);
    }
  }

  /** In every interleaving of any number of reconciles, whatever fails and however old their listings are: owned names
      stay unique all along if and only if no creation is of a name that the daemon owns by then. */
  lemma UniqueInterleaved(ms: Mirrors, events: seq<Event>)
    requires WellFormed(ms) && UniqueOwned(ms) && FreshEvents(ms, events)
    ensures (forall i | 0 <= i <= |events| :: UniqueOwned(Along(ms, events, i))) <==>
            (forall i | 0 <= i < |events| :: !Duplicates(Along(ms, events, i), events[i]))
  {
    if forall i | 0 <= i <= |events| :: UniqueOwned(Along(ms, events, i)) {
      forall i | 0 <= i < |events| ensures !Duplicates(Along(ms, events, i), events[i]) {
        assert UniqueOwned(Along(ms, events, i)) && UniqueOwned(Along(ms, events, i + 1));
        UniqueAt(ms, events, i);
      }
    }
    if forall i | 0 <= i < |events| :: !Duplicates(Along(ms, events, i), events[i]) {
      forall i | 0 <= i <= |events| ensures UniqueOwned(Along(ms, events, i)) {
        NeverDuplicated(ms, events, i);
      }
    }
  }

  // ---------------------------------------------------------------- listings of one and the same state

  /** The sessions that these events create: identifier and name. */
  function Created(events: seq<Event>): set<(string, string)> {
    if events == [] then {}
    else
      var e := events[|events| - 1];
      Created(events[..|events| - 1]) + if Creates(e) then {(e.job.newId, e.job.session.name)} else {}
  }

  lemma {:induction false} CreatedBy(events: seq<Event>, c: (string, string)) returns (e: Event)
    requires c in Created(events)
    ensures e in events && Creates(e) && c == (e.job.newId, e.job.session.name)
  {
    e := events[|events| - 1];
    if !(Creates(e) && c == (e.job.newId, e.job.session.name)) {
      e := CreatedBy(events[..|events| - 1], c);
    }
  }

  lemma {:induction false} CreatedHas(events: seq<Event>, e: Event)
    requires e in events && Creates(e)
    ensures (e.job.newId, e.job.session.name) in Created(events)
  {
    if e == events[|events| - 1] {
    } else {
      CreatedHas(events[..|events| - 1], e);
    }
  }

  /** All listings show the state `ms`; identifiers are new and belong to one job each; only sessions of `ms` are
      ended. */
  ghost predicate Concurrent(ms: Mirrors, events: seq<Event>) {
    && (forall e | e in events && e.Act? ::
          && FreshId(ms, e.job.newId) && Reserved(e.job.session.name)
          && forall i | i in ms && ms[i].owned :: ListedName(i, ms[i]) in e.listing)
    && (forall e, f | e in events && f in events && e.Act? && f.Act? && e.job.newId == f.job.newId :: e == f)
    && (forall e | e in events && e.Kill? :: e.target in ms)
  }

  /** The sessions are what is left of `ms`, and all that have been created. */
  ghost predicate Traced(ms: Mirrors, now: Mirrors, created: set<(string, string)>) {
    && (forall i | i in now && i in ms :: now[i].name == ms[i].name && now[i].owned == ms[i].owned)
    && (forall i | i in now && i !in ms :: (i, now[i].name) in created && now[i].owned)
    && (forall c | c in created :: c.0 !in ms && c.0 in now && now[c.0].name == c.1)
  }

  lemma PauseTraced(ms: Mirrors, mid: Mirrors, spec: string, paused: bool, created: set<(string, string)>)
    requires Traced(ms, mid, created)
    ensures Traced(ms, SetPaused(mid, spec, paused), created)
  {}

  lemma KillTraced(ms: Mirrors, mid: Mirrors, target: string, created: set<(string, string)>)
    requires WellFormed(ms) && Traced(ms, mid, created) && target in ms && forall c | c in created :: Reserved(c.1)
    ensures Traced(ms, Without(mid, {target}), created)
  {}

  lemma CreateTraced(ms: Mirrors, mid: Mirrors, id: string, name: string, created: set<(string, string)>)
    requires Traced(ms, mid, created) && id !in ms && forall c | c in created && c.0 == id :: c.1 == name
    ensures Traced(ms, mid[id := Mirror(name, true, false)], created + {(id, name)})
  {}

  lemma EffectTraced(ms: Mirrors, mid: Mirrors, e: Event, created: set<(string, string)>)
    requires WellFormed(ms) && Traced(ms, mid, created) && forall c | c in created :: Reserved(c.1)
    requires e.Act? ==>
               e.job.newId !in ms && forall c | c in created && c.0 == e.job.newId :: c.1 == e.job.session.name
    requires e.Kill? ==> e.target in ms
    ensures Traced(ms, Effect(mid, e), created + if Creates(e) then {(e.job.newId, e.job.session.name)} else {})
  {
    if e.Kill? {
      KillTraced(ms, mid, e.target, created);
    } else if Creates(e) {
      CreateTraced(ms, mid, e.job.newId, e.job.session.name, created);
    } else {
      PauseTraced(ms, mid, e.job.session.name, !e.job.running, created);
    }
    assert created + {} == created;
  }

  lemma {:induction false} PlayedTraced(ms: Mirrors, events: seq<Event>)
    requires WellFormed(ms) && Concurrent(ms, events)
    ensures Traced(ms, Played(ms, events), Created(events)) && forall c | c in Created(events) :: Reserved(c.1)
  {
    if events == [] {
    } else {
      var init, e := events[..|events| - 1], events[|events| - 1];
      PlayedTraced(ms, init);
      forall c | c in Created(init) && e.Act? && c.0 == e.job.newId ensures c.1 == e.job.session.name {
        var f := CreatedBy(init, c);
      }
      EffectTraced(ms, Played(ms, init), e, Created(init));
    }
  }

  /** No two of them share a name. */
  ghost predicate NamesApart(created: set<(string, string)>) {
    forall c, d | c in created && d in created && c.1 == d.1 :: c == d
  }

  lemma TracedUnique(ms: Mirrors, now: Mirrors, created: set<(string, string)>)
    requires WellFormed(ms) && UniqueOwned(ms) && Traced(ms, now, created)
    requires forall c | c in created :: Reserved(c.1)
    requires forall c, i | c in created && i in ms && ms[i].owned :: ListedName(i, ms[i]) != c.1
    ensures UniqueOwned(now) <==> NamesApart(created)
  {
    if UniqueOwned(now) {
      forall c, d | c in created && d in created && c.1 == d.1 ensures c == d {
        assert ListedName(c.0, now[c.0]) == ListedName(d.0, now[d.0]);
      }
    }
    if NamesApart(created) {
      forall i, j | i in now && j in now && now[i].owned && now[j].owned
                    && ListedName(i, now[i]) == ListedName(j, now[j]) ensures i == j
      {
        assert i in ms ==> ListedName(i, now[i]) == ListedName(i, ms[i]);
        assert j in ms ==> ListedName(j, now[j]) == ListedName(j, ms[j]);
        assert i !in ms ==> (i, now[i].name) in created;
        assert j !in ms ==> (j, now[j].name) in created;
      }
    }
  }

  /** Two events create one name under two identifiers. */
  ghost predicate Twice(events: seq<Event>, e: Event, f: Event) {
    && e in events && f in events && Creates(e) && Creates(f)
    && e.job.session.name == f.job.session.name && e.job.newId != f.job.newId
  }

  ghost predicate SomeTwice(events: seq<Event>) {
    exists e, f :: Twice(events, e, f)
  }

  lemma ConcurrentUnique(ms: Mirrors, events: seq<Event>)
    requires WellFormed(ms) && UniqueOwned(ms) && Concurrent(ms, events)
    ensures UniqueOwned(Played(ms, events)) <==> !SomeTwice(events)
  {
    var created := Created(events);
    PlayedTraced(ms, events);
    forall c, i | c in created && i in ms && ms[i].owned ensures ListedName(i, ms[i]) != c.1 {
      var e := CreatedBy(events, c);
    }
    TracedUnique(ms, Played(ms, events), created);
    if !NamesApart(created) {
      var c, d :| c in created && d in created && c.1 == d.1 && c != d;
      var e := CreatedBy(events, c);
      var f := CreatedBy(events, d);
      assert Twice(events, e, f);
    }
    if SomeTwice(events) {
      var e, f :| Twice(events, e, f);
      CreatedHas(events, e);
      CreatedHas(events, f);
    }
  }

  // ---------------------------------------------------------------- overlapping rounds

  /** The things a round does. */
  ghost predicate IsEvent(r: Round, digest: Digest, e: Event)
    requires r.listing.Some?
  {
    match e
    case Act(j, listing) => listing == r.listing.value && j in Demand(r, digest)
    case Kill(target) => target in Doomed(Wanted(Demand(r, digest)), r.listing.value, r.weather.terminate)
  }

  /** Any number of rounds that have all listed the daemon in state `ms`; `events` is what they do, in any order. */
  ghost predicate Overlap(ms: Mirrors, rounds: seq<Round>, digest: Digest, events: seq<Event>) {
    && WellFormed(ms)
    && (forall p | 0 <= p < |rounds| :: Possible(ms, rounds[p], digest) && rounds[p].enabled && rounds[p].listing.Some?)
    && (forall p, q, j, k | 0 <= p < q < |rounds| && j in Demand(rounds[p], digest) && k in Demand(rounds[q], digest) ::
          j.newId != k.newId)
    && (forall e | e in events :: exists p :: 0 <= p < |rounds| && IsEvent(rounds[p], digest, e))
    && (forall p, e | 0 <= p < |rounds| && IsEvent(rounds[p], digest, e) :: e in events)
  }

  /** Two of the rounds create the same name. */
  ghost predicate BothCreate(rounds: seq<Round>, digest: Digest, p: int, j: Job, q: int, k: Job)
  {
    && 0 <= p < q < |rounds| && rounds[p].listing.Some? && rounds[q].listing.Some?
    && j in Demand(rounds[p], digest) && Creates(Act(j, rounds[p].listing.value))
    && k in Demand(rounds[q], digest) && Creates(Act(k, rounds[q].listing.value))
    && j.session.name == k.session.name
  }

  /** A round's own jobs differ in name and in identifier. */
  lemma OwnJobs(ms: Mirrors, r: Round, digest: Digest, j: Job, k: Job)
    requires Possible(ms, r, digest) && j in Demand(r, digest) && k in Demand(r, digest)
    ensures Reserved(j.session.name) && FreshId(ms, j.newId)
    ensures j.newId == k.newId || j.session.name == k.session.name ==> j == k
  {
    NamesAreDistinct(r.containers, r.weather, digest);
  }

  /** The round that an event comes from. */
  lemma Origin(ms: Mirrors, rounds: seq<Round>, digest: Digest, events: seq<Event>, e: Event) returns (p: nat)
    requires Overlap(ms, rounds, digest, events) && e in events
    ensures p < |rounds| && Possible(ms, rounds[p], digest) && rounds[p].listing.Some? && IsEvent(rounds[p], digest, e)
    ensures e.Act? ==> FreshId(ms, e.job.newId) && Reserved(e.job.session.name)
    ensures e.Act? ==> forall i | i in ms && ms[i].owned :: ListedName(i, ms[i]) in e.listing
    ensures e.Kill? ==> e.target in ms
  {
    var q :| 0 <= q < |rounds| && IsEvent(rounds[q], digest, e);
    p := q;
    if e.Act? { OwnJobs(ms, rounds[p], digest, e.job, e.job); }
  }

  /** Jobs of one name or one identifier are the same job, unless two rounds have them. */
  lemma SameOrigin(
    ms: Mirrors, rounds: seq<Round>, digest: Digest, events: seq<Event>, p: nat, e: Event, q: nat, f: Event)
    requires Overlap(ms, rounds, digest, events) && p < |rounds| && q < |rounds| && e.Act? && f.Act?
    requires IsEvent(rounds[p], digest, e) && IsEvent(rounds[q], digest, f)
    ensures e.job.newId == f.job.newId ==> e == f
    ensures p == q && e.job.session.name == f.job.session.name ==> e == f
  {
    if p == q { OwnJobs(ms, rounds[p], digest, e.job, f.job); }
  }

  lemma OverlapConcurrent(ms: Mirrors, rounds: seq<Round>, digest: Digest, events: seq<Event>)
    requires Overlap(ms, rounds, digest, events)
    ensures Concurrent(ms, events)
  {
    forall e | e in events
      ensures e.Act? ==> FreshId(ms, e.job.newId) && Reserved(e.job.session.name)
      ensures e.Act? ==> forall i | i in ms && ms[i].owned :: ListedName(i, ms[i]) in e.listing
      ensures e.Kill? ==> e.target in ms
    {
      var _ := Origin(ms, rounds, digest, events, e);
    }
    forall e, f | e in events && f in events && e.Act? && f.Act? && e.job.newId == f.job.newId ensures e == f {
      var p := Origin(ms, rounds, digest, events, e);
      var q := Origin(ms, rounds, digest, events, f);
      SameOrigin(ms, rounds, digest, events, p, e, q, f);
    }
  }

  ghost predicate SomeBothCreate(rounds: seq<Round>, digest: Digest) {
    exists p, j, q, k :: BothCreate(rounds, digest, p, j, q, k)
  }

  lemma TwiceByBoth(ms: Mirrors, rounds: seq<Round>, digest: Digest, events: seq<Event>, e: Event, f: Event)
    requires Overlap(ms, rounds, digest, events) && Twice(events, e, f)
    ensures SomeBothCreate(rounds, digest)
  {
    var p := Origin(ms, rounds, digest, events, e);
    var q := Origin(ms, rounds, digest, events, f);
    SameOrigin(ms, rounds, digest, events, p, e, q, f);
    assert p != q;
    if p < q {
      assert BothCreate(rounds, digest, p, e.job, q, f.job);
    } else {
      assert BothCreate(rounds, digest, q, f.job, p, e.job);
    }
  }

  lemma BothTwice(
    ms: Mirrors, rounds: seq<Round>, digest: Digest, events: seq<Event>, p: nat, j: Job, q: nat, k: Job)
    requires Overlap(ms, rounds, digest, events) && BothCreate(rounds, digest, p, j, q, k)
    ensures Twice(events, Act(j, rounds[p].listing.value), Act(k, rounds[q].listing.value))
  {
    var e, f := Act(j, rounds[p].listing.value), Act(k, rounds[q].listing.value);
    assert IsEvent(rounds[p], digest, e) && IsEvent(rounds[q], digest, f);
  }

  /** However the rounds interleave and whatever fails: owned names stay unique if and only if no two of the rounds
      create the same name. */
  lemma OverlapUnique(ms: Mirrors, rounds: seq<Round>, digest: Digest, events: seq<Event>)
    requires Overlap(ms, rounds, digest, events) && UniqueOwned(ms)
    ensures UniqueOwned(Played(ms, events)) <==> !SomeBothCreate(rounds, digest)
  {
    OverlapConcurrent(ms, rounds, digest, events);
    ConcurrentUnique(ms, events);
    forall e, f | Twice(events, e, f) ensures SomeBothCreate(rounds, digest) {
      TwiceByBoth(ms, rounds, digest, events, e, f);
    }
    forall p, j, q, k | BothCreate(rounds, digest, p, j, q, k) ensures SomeTwice(events) {
      BothTwice(ms, rounds, digest, events, p, j, q, k);
    }
  }

  lemma TracedWellFormed(ms: Mirrors, events: seq<Event>)
    requires WellFormed(ms) && Concurrent(ms, events)
    ensures WellFormed(Played(ms, events))
  {
    var now := Played(ms, events);
    PlayedTraced(ms, events);
    forall i | i in now && i !in ms ensures FreshId(ms, i) {
      var e := CreatedBy(events, (i, now[i].name));
    }
  }

  /** Where two rounds create the same name, the daemon ends up with both sessions: no sweep takes one away. */
  lemma OverlapDuplicates(
    ms: Mirrors, rounds: seq<Round>, digest: Digest, events: seq<Event>, p: nat, j: Job, q: nat, k: Job)
    requires Overlap(ms, rounds, digest, events) && BothCreate(rounds, digest, p, j, q, k)
    ensures var end := Played(ms, events);
            && WellFormed(end) && !UniqueOwned(end) && j.newId != k.newId
            && j.newId in end && end[j.newId].owned && end[j.newId].name == j.session.name
            && k.newId in end && end[k.newId].owned && end[k.newId].name == j.session.name
  {
    var e, f := Act(j, rounds[p].listing.value), Act(k, rounds[q].listing.value);
    var end := Played(ms, events);
    BothTwice(ms, rounds, digest, events, p, j, q, k);
    OverlapConcurrent(ms, rounds, digest, events);
    PlayedTraced(ms, events);
    CreatedHas(events, e);
    CreatedHas(events, f);
    assert ListedName(j.newId, end[j.newId]) == ListedName(k.newId, end[k.newId]);
    TracedWellFormed(ms, events);
  }

  /** No later run of serial reconciles gets rid of such a duplicate while its entry stays listed. */
  lemma OverlapNeverHeals(
    ms: Mirrors, overlap: seq<Round>, digest: Digest, events: seq<Event>, p: nat, j: Job, q: nat, k: Job,
    rounds: seq<Round>, id: string, rule: string, index: nat, entry: SyncEntry)
    requires Overlap(ms, overlap, digest, events) && BothCreate(overlap, digest, p, j, q, k)
    requires j.session.name == SessionName(id, rule, index, entry, digest)
    requires PossibleRun(Played(ms, events), rounds, digest)
    requires forall m | 0 <= m < |rounds| && rounds[m].enabled :: Lists(rounds[m], id, rule, index, entry)
    ensures var end := RunEnd(Played(ms, events), rounds, digest);
            && j.newId in end && k.newId in end && j.newId != k.newId && !UniqueOwned(end)
            && end[j.newId].name == end[k.newId].name == SessionName(id, rule, index, entry, digest)
  {
    OverlapDuplicates(ms, overlap, digest, events, p, j, q, k);
    SessionKept(Played(ms, events), rounds, digest, j.newId, id, rule, index, entry);
    SessionKept(Played(ms, events), rounds, digest, k.newId, id, rule, index, entry);
    var end := RunEnd(Played(ms, events), rounds, digest);
    assert ListedName(j.newId, end[j.newId]) == ListedName(k.newId, end[k.newId]);
  }

  const SAMPLE := Container("box", true, "vscode", "10.0.0.2", "/work",
                            Some(Rule("default", [], None, [SyncEntry("push", "/home", "/work")])), NO_T3, NO_SYNC)

  /** A round over the sample container in which everything succeeds and the one creation gets the identifier `id`. */
  function SampleRound(id: string): Round {
    Round([SAMPLE], true,
          Weather(true, (i: string) => Watching, (c: nat, i: nat) => Probe(Directory, Ok(Directory)),
                  (c: nat, i: nat) => Succeeds, (c: nat, i: nat) => id, (n: string) => Succeeds),
          Some(map[]))
  }

  lemma SampleJobs(id: string, digest: Digest)
    ensures Demand(SampleRound(id), digest) == [JobAt(SAMPLE, 0, 0, SampleRound(id).weather, digest)]
  {
    var w := SampleRound(id).weather;
    assert Jobs([], w, digest) == [] && [SAMPLE][..0] == [];
    assert Jobs([SAMPLE], w, digest) == JobsOf(SAMPLE, 0, w, digest);
    assert JobsOf(SAMPLE, 0, w, digest) == [JobAt(SAMPLE, 0, 0, w, digest)];
  }

  lemma SampleDemand(id: string, digest: Digest) returns (j: Job)
    requires id == "a" || id == "b"
    ensures Demand(SampleRound(id), digest) == [j] && j.newId == id && Creates(Act(j, map[]))
    ensures j.session.name == SessionName(SAMPLE.id, "default", 0, SAMPLE.rule.value.syncs[0], digest)
    ensures Possible(map[], SampleRound(id), digest)
  {
    SampleJobs(id, digest);
    j := JobAt(SAMPLE, 0, 0, SampleRound(id).weather, digest);
  }

  lemma OnlyEvent(r: Round, j: Job, digest: Digest)
    requires Demand(r, digest) == [j] && r.listing == Some(map[])
    ensures forall e :: IsEvent(r, digest, e) <==> e == Act(j, map[])
  {}

  /** Two rounds of one job each that found nothing listed overlap like this. */
  lemma OverlapOfTwo(r1: Round, j: Job, r2: Round, k: Job, digest: Digest)
    requires r1.enabled && Possible(map[], r1, digest) && Demand(r1, digest) == [j] && r1.listing == Some(map[])
    requires r2.enabled && Possible(map[], r2, digest) && Demand(r2, digest) == [k] && r2.listing == Some(map[])
    requires j.newId != k.newId
    ensures Overlap(map[], [r1, r2], digest, [Act(j, map[]), Act(k, map[])])
  {
    var rounds, events := [r1, r2], [Act(j, map[]), Act(k, map[])];
    OnlyEvent(r1, j, digest);
    OnlyEvent(r2, k, digest);
    assert rounds[0] == r1 && rounds[1] == r2 && forall e | e in events :: e == events[0] || e == events[1];
  }

  /** Such an overlap is possible: two rounds over one container, starting from an empty daemon. */
  lemma OverlapExample(digest: Digest) returns (events: seq<Event>, j: Job, k: Job)
    ensures Overlap(map[], [SampleRound("a"), SampleRound("b")], digest, events)
    ensures BothCreate([SampleRound("a"), SampleRound("b")], digest, 0, j, 1, k)
  {
    j := SampleDemand("a", digest);
    k := SampleDemand("b", digest);
    OverlapOfTwo(SampleRound("a"), j, SampleRound("b"), k, digest);
    events := [Act(j, map[]), Act(k, map[])];
  }
}
