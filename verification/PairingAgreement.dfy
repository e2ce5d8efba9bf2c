/** What interleaving does to the agreement of cache and store: the steps that endanger it, each with its exact
    condition, and the runs in which it survives. */
module PairingAgreement {
  import opened Model
  import opened BrowserTokens
  import opened TokenTheorems
  import opened PairingSteps

  /** A bootstrap holds the lock, has saved its row and is about to publish its token. */
  predicate Publishing(s: System) {
    s.lock.Some? && s.lock.value in s.threads && s.threads[s.lock.value].Saved?
  }

  /** The gateway as it will be once the holder of the lock has published what it saved. */
  function Settled(s: System): Vault {
    if !Publishing(s) then VaultOf(s)
    else
      var th := s.threads[s.lock.value];
      VaultOf(s).(cache := Purge(s.cache, th.envId)[th.token := BrowserToken(th.token, th.envId, th.expiresAt)])
  }

  ghost predicate Agreeing(s: System, key: KeyMap) {
    Agrees(Settled(s), key, s.now)
  }

  /** The condition under which a step leaves cache and store in agreement. Only three kinds of step have one:
      a save that reports failure after it has written, the deletion of a row and the re-insert of a token. */
  predicate Harmless(s: System, a: Action, key: KeyMap) {
    if !Enabled(s, a) then true
    else match a
      case Save(p, fate) =>
        fate.FailsAfter? ==> Expired(s.cache, s.threads[p].envId, s.now, Some(s.threads[p].token))
      case Delete(p, fate) =>
        Lands(fate) ==> Expired(Settled(s).cache, s.threads[p].envId, s.now, None)
      case Insert(p) =>
        var th := s.threads[p];
        s.now >= th.expiresAt || (key(th.envId) in s.rows && s.rows[key(th.envId)] == Row(th.token, th.expiresAt))
      case _ => true
  }

  /** What a save leaves behind, once its thread is done. */
  lemma SavedSettled(s: System, p: nat, fate: Fate, key: KeyMap)
    requires p in s.threads && s.threads[p].Minting? && s.lock == Some(p)
    ensures var th, v := s.threads[p], VaultOf(s);
            var b := BrowserToken(th.token, th.envId, th.expiresAt);
            Settled(RowSaved(s, p, th, fate, key)) ==
            if fate.FailsAfter? then WithRow(v, key, b)
            else if fate.FailsBefore? then v
            else WithRow(v, key, b).(cache := Purge(v.cache, b.envId)[b.token := b])
  {}

  lemma SaveAgreement(s: System, p: nat, fate: Fate, key: KeyMap)
    requires OneToOne(key) && Agreeing(s, key) && p in s.threads && s.threads[p].Minting? && s.durable
    requires var th := s.threads[p];
             && s.lock == Some(p)
             && (th.token in s.cache && s.cache[th.token].envId == th.envId ==>
                   s.cache[th.token] == BrowserToken(th.token, th.envId, th.expiresAt))
    ensures Agreeing(RowSaved(s, p, s.threads[p], fate, key), key) <==> Harmless(s, Save(p, fate), key)
  {
    var th, v := s.threads[p], VaultOf(s);
    var b := BrowserToken(th.token, th.envId, th.expiresAt);
    SavedSettled(s, p, fate, key);
    RowAhead(v, key, s.now, b);
    RowAndCache(v, key, s.now, b);
  }

  /** The unlocked deletion removes whatever row is there by now: agreement survives it if and only if it does not
      land or the environment has no live token left. */
  lemma DeleteAgreement(s: System, p: nat, fate: Fate, key: KeyMap)
    requires OneToOne(key) && Agreeing(s, key) && p in s.threads && s.threads[p].Deleting?
    ensures Agreeing(RowDeleted(s, p, s.threads[p], fate, key), key)
            <==> !Lands(fate) || Expired(Settled(s).cache, s.threads[p].envId, s.now, None)
  {
    var th, v := s.threads[p], Settled(s);
    var e := RowDeleted(s, p, th, fate, key);
    assert Settled(e) == if Lands(fate) then v.(rows := v.rows - {key(th.envId)}) else v;
    RowGone(v, key, s.now, th.envId);
  }

  /** What interleaving costs: the agreement of cache and store survives a re-insert exactly when the row that
      was read is still there or the token has expired meanwhile. */
  lemma InsertAgreement(s: System, p: nat, key: KeyMap)
    requires p in s.threads && s.threads[p].Inserting? && Agrees(VaultOf(s), key, s.now)
    ensures var th := s.threads[p];
            Agrees(VaultOf(Inserted(s, p, th)), key, s.now) <==>
            s.now >= th.expiresAt || (key(th.envId) in s.rows && s.rows[key(th.envId)] == Row(th.token, th.expiresAt))
  {
    var th := s.threads[p];
    var t := Inserted(s, p, th);
    assert t.cache[th.token] == BrowserToken(th.token, th.envId, th.expiresAt);
    forall u | u in t.cache && u != th.token ensures t.cache[u] == s.cache[u] {}
  }

  /** Publishing what was saved is no news. */
  lemma PublishKeepsSettled(s: System, p: nat, key: KeyMap)
    requires Inv(s, key) && p in s.threads && s.threads[p].Saved?
    ensures Settled(Published(s, p, s.threads[p])) == Settled(s)
  {
    assert ThreadOk(s.lock, s.claimed, s.minted, key, p, s.threads[p]);
  }

  /** Nothing but thread `p` has moved, and it is not between its save and its publication. */
  ghost predicate Moved(s: System, e: System, p: nat) {
    && (p in s.threads ==> !s.threads[p].Saved?) && (p in e.threads ==> !e.threads[p].Saved?)
    && (forall q | q in s.threads && q != p :: q in e.threads && e.threads[q] == s.threads[q])
    && (forall q | q in e.threads && q != p :: q in s.threads)
    && (e.lock == s.lock || (s.lock.None? && e.lock == Some(p)))
    && e.cache == s.cache && e.rows == s.rows && e.now == s.now && e.durable == s.durable
  }

  lemma MovingKeepsSettled(s: System, e: System, p: nat)
    requires Moved(s, e, p)
    ensures Settled(e).cache == Settled(s).cache && Settled(e).rows == Settled(s).rows
  {}

  lemma MovesTo(s: System, p: nat, th: Thread)
    requires !th.Saved? && (p in s.threads ==> !s.threads[p].Saved?)
    ensures Moved(s, s.(threads := s.threads[p := th]), p) && Moved(s, s.(threads := s.threads - {p}), p)
  {}

  lemma FetchMoves(s: System, p: nat, th: Thread, reachable: bool, key: KeyMap)
    requires p in s.threads && s.threads[p] == th && th.Fetching?
    ensures Moved(s, Fetched(s, p, th, reachable, key), p)
  {
    var row := if key(th.envId) in s.rows then Some(s.rows[key(th.envId)]) else None;
    MovesTo(s, p, Deciding(th.envId, th.token, row));
  }

  lemma DecideMoves(s: System, p: nat, th: Thread)
    requires p in s.threads && s.threads[p] == th && th.Deciding?
    ensures Moved(s, PairingSteps.Decided(s, p, th), p)
  {
    MovesTo(s, p, Deleting(th.envId));
    if th.row.Some? { MovesTo(s, p, Inserting(th.envId, th.token, th.row.value.expiresAt, s.now)); }
  }

  lemma LookupMoves(s: System, p: nat, envId: string, token: string)
    requires p !in s.threads
    ensures Moved(s, LookedUp(s, p, envId, token), p)
  {
    MovesTo(s, p, Fetching(envId, token));
  }

  lemma BootstrapMoves(s: System, p: nat, envId: string, code: string, token: string)
    ensures s.lock.None? && p !in s.threads ==> Moved(s, CodeClaimed(s, p, envId, code), p)
    ensures p in s.threads && s.threads[p].Claimed? ==> Moved(s, TokenDrawn(s, p, s.threads[p], token), p)
  {}

  /** The thread that an action moves without touching cache or rows. */
  function Mover(a: Action): Option<nat> {
    match a
    case ClaimCode(p, _, _) => Some(p)
    case DrawToken(p, _) => Some(p)
    case Lookup(p, _, _) => Some(p)
    case Fetch(p, _) => Some(p)
    case Decide(p) => Some(p)
    case _ => None
  }

  lemma MoverMoves(s: System, a: Action, key: KeyMap)
    requires Enabled(s, a) && Mover(a).Some?
    ensures Moved(s, Step(s, a, key), Mover(a).value)
  {
    match a
    case ClaimCode(p, env, code) => BootstrapMoves(s, p, env, code, "");
    case DrawToken(p, token) => BootstrapMoves(s, p, "", "", token);
    case Lookup(p, env, token) => LookupMoves(s, p, env, token);
    case Fetch(p, reachable) => FetchMoves(s, p, s.threads[p], reachable, key);
    case Decide(p) => DecideMoves(s, p, s.threads[p]);
  }

  /** No other step touches a row, or a cached copy that outlives the holder of the lock. */
  lemma OthersKeepSettled(s: System, a: Action, key: KeyMap)
    requires Inv(s, key) && s.durable && !a.Save? && !a.Delete? && !a.Insert? && !a.Restart?
    ensures var e := Step(s, a, key);
            Settled(e).cache == Settled(s).cache && Settled(e).rows == Settled(s).rows && s.now <= e.now
  {
    if Enabled(s, a) {
      if Mover(a).Some? {
        MoverMoves(s, a, key);
        MovingKeepsSettled(s, Step(s, a, key), Mover(a).value);
      } else if a.Publish? {
        PublishKeepsSettled(s, a.p, key);
      }
    }
  }

  /** Every step, in every state that runs reach: cache and store still agree if and only if the step was harmless. */
  lemma StepAgreement(s: System, a: Action, key: KeyMap)
    requires OneToOne(key) && s.durable && Inv(s, key) && Agreeing(s, key)
    ensures Agreeing(Step(s, a, key), key) <==> Harmless(s, a, key)
  {
    if Enabled(s, a) {
      match a
      case Save(p, fate) =>
        MintingHolds(s, p, key);
        SaveAgreement(s, p, fate, key);
      case Delete(p, fate) => DeleteAgreement(s, p, fate, key);
      case Insert(p) => InsertAgreement(s, p, key);
      case Restart =>
      case _ => OthersKeepSettled(s, a, key);
    }
  }

  lemma StepKeepsDurable(s: System, a: Action, key: KeyMap)
    ensures Step(s, a, key).durable == s.durable
  {
    if Enabled(s, a) && Mover(a).Some? { MoverMoves(s, a, key); }
  }

  lemma {:induction false} RunKeepsDurable(s: System, actions: seq<Action>, key: KeyMap)
    ensures Run(s, actions, key).durable == s.durable
  {
    if actions == [] {
    } else {
      RunKeepsDurable(s, actions[..|actions| - 1], key);
      StepKeepsDurable(Run(s, actions[..|actions| - 1], key), actions[|actions| - 1], key);
    }
  }

  /** The states of a run, one after the other. */
  function Along(s: System, actions: seq<Action>, key: KeyMap, i: nat): System
    requires i <= |actions|
  {
    Run(s, actions[..i], key)
  }

  lemma NextAlong(s: System, actions: seq<Action>, key: KeyMap, i: nat)
    requires i < |actions|
    ensures Along(s, actions, key, i + 1) == Step(Along(s, actions, key, i), actions[i], key)
  {
    assert actions[..i + 1][..i] == actions[..i];
  }

  ghost predicate AllHarmless(s: System, actions: seq<Action>, key: KeyMap) {
    forall i | 0 <= i < |actions| :: Harmless(Along(s, actions, key, i), actions[i], key)
  }

  /** Cache and store agree in every state along the run. */
  ghost predicate AlwaysAgreeing(s: System, actions: seq<Action>, key: KeyMap) {
    forall i | 0 <= i <= |actions| :: Agreeing(Along(s, actions, key, i), key)
  }

  lemma AgreementAt(s: System, actions: seq<Action>, key: KeyMap, i: nat)
    requires OneToOne(key) && Fresh(s, key) && s.durable && i < |actions| && Agreeing(Along(s, actions, key, i), key)
    ensures Agreeing(Along(s, actions, key, i + 1), key) <==> Harmless(Along(s, actions, key, i), actions[i], key)
  {
    RunKeepsInv(s, actions[..i], key);
    RunKeepsDurable(s, actions[..i], key);
    NextAlong(s, actions, key, i);
    StepAgreement(Along(s, actions, key, i), actions[i], key);
  }

  lemma {:induction false} HarmlessAgrees(s: System, actions: seq<Action>, key: KeyMap, n: nat)
    requires OneToOne(key) && Fresh(s, key) && s.durable && n <= |actions| && AllHarmless(s, actions, key)
    ensures Agreeing(Along(s, actions, key, n), key)
  {
    if n == 0 {
      assert Along(s, actions, key, 0) == s;
    } else {
      HarmlessAgrees(s, actions, key, n - 1);
      AgreementAt(s, actions, key, n - 1);
    }
  }

  /** No environment has two live tokens in the cache. */
  ghost predicate OneLive(cache: map<string, BrowserToken>, now: int) {
    forall t, u | t in cache && u in cache && cache[t].envId == cache[u].envId
                  && now < cache[t].expiresAt && now < cache[u].expiresAt :: t == u
  }

  /** A row holds one token, so agreement leaves each environment at most one live token. */
  lemma AgreementMeansOneLive(v: Vault, key: KeyMap, now: int)
    requires Agrees(v, key, now)
    ensures OneLive(v.cache, now)
  {}

  /** In every interleaving with a store: cache and store agree all along if and only if every save, deletion and
      re-insert of the run met its condition; and then they agree whenever the lock is free, and no environment has
      two live tokens. */
  lemma AgreementInterleaved(s: System, actions: seq<Action>, key: KeyMap)
    requires OneToOne(key) && Fresh(s, key) && s.durable
    ensures AlwaysAgreeing(s, actions, key) <==> AllHarmless(s, actions, key)
    ensures var e := Run(s, actions, key);
            AllHarmless(s, actions, key) && e.lock.None? ==> Agrees(VaultOf(e), key, e.now) && OneLive(e.cache, e.now)
  {
    if AlwaysAgreeing(s, actions, key) {
      forall i | 0 <= i < |actions| ensures Harmless(Along(s, actions, key, i), actions[i], key) {
        AgreementAt(s, actions, key, i);
      }
    }
    if AllHarmless(s, actions, key) {
      forall i | 0 <= i <= |actions| ensures Agreeing(Along(s, actions, key, i), key) {
        HarmlessAgrees(s, actions, key, i);
      }
      assert actions[..|actions|] == actions;
      assert Agreeing(Along(s, actions, key, |actions|), key);
      var e := Run(s, actions, key);
      if e.lock.None? { AgreementMeansOneLive(VaultOf(e), key, e.now); }
    }
  }

  // ---------------------------------------------------------------- one token per environment

  lemma InsertedOneLive(cache: map<string, BrowserToken>, b: BrowserToken, now: int)
    requires OneLive(cache, now)
    ensures OneLive(cache[b.token := b], now) <==> now >= b.expiresAt || Expired(cache, b.envId, now, Some(b.token))
  {
    var more := cache[b.token := b];
    forall t | t in cache && t != b.token ensures t in more && more[t] == cache[t] {}
    assert b.token in more && more[b.token] == b;
  }

  /** The step re-inserts a live token although its environment has another one by now. */
  predicate Doubles(s: System, a: Action) {
    && a.Insert? && Enabled(s, a) && s.now < s.threads[a.p].expiresAt
    && !Expired(s.cache, s.threads[a.p].envId, s.now, Some(s.threads[a.p].token))
  }

  lemma PublishedOneLive(s: System, p: nat, th: Thread)
    requires OneLive(s.cache, s.now) && (th.Minting? || th.Saved?)
    ensures OneLive(Published(s, p, th).cache, s.now)
  {}

  lemma OthersKeepOneLive(s: System, a: Action, key: KeyMap)
    requires OneLive(s.cache, s.now) && Mover(a).None? && !a.Insert?
    ensures OneLive(Step(s, a, key).cache, Step(s, a, key).now)
  {
    if a.Publish? && Enabled(s, a) { PublishedOneLive(s, a.p, s.threads[a.p]); }
  }

  /** Only such a re-insert gives an environment a second live token, and it always does. */
  lemma OneLiveStep(s: System, a: Action, key: KeyMap)
    requires OneLive(s.cache, s.now)
    ensures OneLive(Step(s, a, key).cache, Step(s, a, key).now) <==> !Doubles(s, a)
  {
    if Enabled(s, a) {
      if Mover(a).Some? {
        MoverMoves(s, a, key);
      } else if a.Insert? {
        var th := s.threads[a.p];
        InsertedOneLive(s.cache, BrowserToken(th.token, th.envId, th.expiresAt), s.now);
      } else {
        OthersKeepOneLive(s, a, key);
      }
    }
  }

  lemma {:induction false} NeverDoubled(s: System, actions: seq<Action>, key: KeyMap, n: nat)
    requires s.cache == map[] && n <= |actions|
    requires forall i | 0 <= i < |actions| :: !Doubles(Along(s, actions, key, i), actions[i])
    ensures OneLive(Along(s, actions, key, n).cache, Along(s, actions, key, n).now)
  {
    if n == 0 {
      assert Along(s, actions, key, 0) == s;
    } else {
      NeverDoubled(s, actions, key, n - 1);
      NextAlong(s, actions, key, n - 1);
      OneLiveStep(Along(s, actions, key, n - 1), actions[n - 1], key);
    }
  }

  /** In every interleaving, with or without a store: no environment ever has two live tokens in the cache if and
      only if no re-insert of the run comes after another token of its environment. */
  lemma OneLiveInterleaved(s: System, actions: seq<Action>, key: KeyMap)
    requires s.cache == map[]
    ensures (forall i | 0 <= i <= |actions| ::
        OneLive(Along(s, actions, key, i).cache, Along(s, actions, key, i).now)) <==>
            (forall i | 0 <= i < |actions| :: !Doubles(Along(s, actions, key, i), actions[i]))
  {
    if forall i | 0 <= i <= |actions| :: OneLive(Along(s, actions, key, i).cache, Along(s, actions, key, i).now) {
      forall i | 0 <= i < |actions| ensures !Doubles(Along(s, actions, key, i), actions[i]) {
        NextAlong(s, actions, key, i);
        OneLiveStep(Along(s, actions, key, i), actions[i], key);
      }
    }
    if forall i | 0 <= i < |actions| :: !Doubles(Along(s, actions, key, i), actions[i]) {
      forall i | 0 <= i <= |actions| ensures OneLive(Along(s, actions, key, i).cache, Along(s, actions, key, i).now) {
        NeverDoubled(s, actions, key, i);
      }
    }
  }

  ghost predicate Reachable(s: System, e: System, key: KeyMap) {
    exists actions :: Run(s, actions, key) == e
  }

  lemma ReachableStep(s: System, e: System, a: Action, key: KeyMap)
    requires Reachable(s, e, key)
    ensures Reachable(s, Step(e, a, key), key)
  {
    var actions :| Run(s, actions, key) == e;
    assert (actions + [a])[..|actions|] == actions;
    assert Run(s, actions + [a], key) == Step(e, a, key);
  }

  const START := System(0, map[], map[], map[], true, None, map[], map[], map[], map[], [])

  /** The state in which thread `p` has drawn a token for a code issued just now. */
  function Drawn(t: System, p: nat, code: string, token: string): System {
    TokenDrawn(CodeClaimed(PairingSteps.Generated(t, "env", code), p, "env", code), p, Claimed("env", code), token)
  }

  lemma ClaimedReachable(t: System, p: nat, code: string, key: KeyMap)
    requires Reachable(START, t, key) && t.lock.None? && p !in t.threads
    ensures Reachable(START, CodeClaimed(t, p, "env", code), key)
  {
    ReachableStep(START, t, ClaimCode(p, "env", code), key);
    assert Step(t, ClaimCode(p, "env", code), key) == CodeClaimed(t, p, "env", code);
  }

  lemma DrawnReachable(t: System, p: nat, code: string, token: string, key: KeyMap)
    requires Reachable(START, t, key)
    requires t.lock.None? && p !in t.threads && code !in t.issued && token !in t.minted
    ensures Reachable(START, Drawn(t, p, code, token), key)
  {
    var issued := PairingSteps.Generated(t, "env", code);
    ReachableStep(START, t, Action.Generate("env", code), key);
    assert Step(t, Action.Generate("env", code), key) == issued;
    ClaimedReachable(issued, p, code, key);
    var claimed := CodeClaimed(issued, p, "env", code);
    ReachableStep(START, claimed, DrawToken(p, token), key);
    assert Step(claimed, DrawToken(p, token), key) == TokenDrawn(claimed, p, claimed.threads[p], token);
  }

  lemma SaveAndPublish(t: System, p: nat, token: string, expires: int, key: KeyMap) returns (e: System)
    requires Reachable(START, t, key) && t.durable && p in t.threads && t.threads[p] == Minting("env", token, expires)
    ensures Reachable(START, e, key)
    ensures e == t.(lock := None, threads := t.threads - {p}, rows := t.rows[key("env") := Row(token, expires)],
                    cache := Purge(t.cache, "env")[token := BrowserToken(token, "env", expires)])
  {
    ReachableStep(START, t, Save(p, Succeeds), key);
    var saved := t.(rows := t.rows[key("env") := Row(token, expires)],
                    threads := t.threads[p := Saved("env", token, expires)]);
    assert Step(t, Save(p, Succeeds), key) == RowSaved(t, p, t.threads[p], Succeeds, key) == saved;
    ReachableStep(START, saved, Publish(p), key);
    e := Published(saved, p, saved.threads[p]);
    assert Step(saved, Publish(p), key) == e;
    assert saved.threads - {p} == t.threads - {p};
  }

  /** One undisturbed pairing by thread `p`. */
  lemma OnePairing(t: System, p: nat, code: string, token: string, key: KeyMap) returns (e: System)
    requires Reachable(START, t, key)
    requires t.durable && t.lock.None? && p !in t.threads && code !in t.issued && token !in t.minted
    ensures Reachable(START, e, key)
    ensures e.now == t.now && e.durable && e.lock.None? && e.threads == t.threads
    ensures e.issued.Keys == t.issued.Keys + {code} && e.minted.Keys == t.minted.Keys + {token}
    ensures e.rows == t.rows[key("env") := Row(token, t.now + TOKEN_LIFETIME)]
    ensures e.cache == Purge(t.cache, "env")[token := BrowserToken(token, "env", t.now + TOKEN_LIFETIME)]
  {
    var drawn := Drawn(t, p, code, token);
    DrawnReachable(t, p, code, token, key);
    e := SaveAndPublish(drawn, p, token, t.now + TOKEN_LIFETIME, key);
    assert drawn.threads - {p} == t.threads;
  }

  /** A thread that finds nothing cached reads its row; one that has read a matching row re-inserts it. */
  lemma LookupThenFetch(t: System, p: nat, envId: string, token: string, key: KeyMap)
    requires Reachable(START, t, key)
    requires t.lock.None? && p !in t.threads && t.durable && token !in t.cache && key(envId) in t.rows
    ensures Reachable(START, t.(threads := t.threads[p := Deciding(envId, token, Some(t.rows[key(envId)]))]), key)
  {
    var looked := t.(threads := t.threads[p := Fetching(envId, token)]);
    ReachableStep(START, t, Lookup(p, envId, token), key);
    assert Step(t, Lookup(p, envId, token), key) == LookedUp(t, p, envId, token) == looked;
    ReachableStep(START, looked, Fetch(p, true), key);
    var row := Some(t.rows[key(envId)]);
    assert Step(looked, Fetch(p, true), key) == looked.(threads := looked.threads[p := Deciding(envId, token, row)]);
    assert looked.threads[p := Deciding(envId, token, row)] == t.threads[p := Deciding(envId, token, row)];
  }

  lemma DecideAccepts(t: System, p: nat, envId: string, row: Row, key: KeyMap)
    requires Reachable(START, t.(threads := t.threads[p := Deciding(envId, row.token, Some(row))]), key)
        && t.now <= row.expiresAt
    ensures Reachable(START, t.(threads := t.threads[p := Inserting(envId, row.token, row.expiresAt, t.now)]), key)
  {
    var deciding := t.(threads := t.threads[p := Deciding(envId, row.token, Some(row))]);
    ReachableStep(START, deciding, Decide(p), key);
    var to := Inserting(envId, row.token, row.expiresAt, t.now);
    assert Step(deciding, Decide(p), key) == deciding.(threads := deciding.threads[p := to]);
    assert deciding.threads[p := to] == t.threads[p := to];
  }

  /** After a pairing and a restart, a thread has read the first token's row and is about to cache it. */
  lemma PendingInsert(key: KeyMap) returns (e: System)
    ensures Reachable(START, e, key) && e.now == 0 && e.durable && e.lock.None? && e.cache == map[]
    ensures e.threads == map[2 := Inserting("env", "t1", TOKEN_LIFETIME, 0)]
    ensures "c2" !in e.issued && "t2" !in e.minted
  {
    assert Run(START, [], key) == START;
    var first := OnePairing(START, 1, "c1", "t1", key);
    ReachableStep(START, first, Restart, key);
    var empty := first.(pairing := map[], cache := map[], lock := None, threads := map[]);
    LookupThenFetch(empty, 2, "env", "t1", key);
    DecideAccepts(empty, 2, "env", Row("t1", TOKEN_LIFETIME), key);
    e := empty.(threads := empty.threads[2 := Inserting("env", "t1", TOKEN_LIFETIME, 0)]);
  }

  lemma LateInsert(t: System, key: KeyMap) returns (e: System)
    requires Reachable(START, t, key) && t.now == 0 && t.lock.None?
    requires t.threads == map[2 := Inserting("env", "t1", TOKEN_LIFETIME, 0)]
    requires key("env") in t.rows && t.rows[key("env")].token == "t2"
    requires t.cache == Purge(map[], "env")["t2" := BrowserToken("t2", "env", TOKEN_LIFETIME)]
    ensures Reachable(START, e, key)
    ensures e.cache.Keys == {"t1", "t2"} && e.cache["t1"].envId == e.cache["t2"].envId == "env"
    ensures CacheGrants(VaultOf(e), "env", "t1", e.now) && !RowGrants(VaultOf(e), key("env"), "t1", e.now)
  {
    e := Inserted(t, 2, t.threads[2]);
    ReachableStep(START, t, Insert(2), key);
    assert Step(t, Insert(2), key) == e;
  }

  /** A reachable state in which that fails: a second pairing lands between the read and the re-insert of the
      first token, and both tokens of the environment are cached and live. Hence agreement with the store and
      "one token per environment" are claims about sequential runs only. */
  lemma InterleavingExample(key: KeyMap)
    ensures exists e :: Reachable(START, e, key)
              && e.cache.Keys == {"t1", "t2"} && e.cache["t1"].envId == e.cache["t2"].envId == "env"
              && CacheGrants(VaultOf(e), "env", "t1", e.now) && !RowGrants(VaultOf(e), key("env"), "t1", e.now)
  {
    var pending := PendingInsert(key);
    var second := OnePairing(pending, 3, "c2", "t2", key);
    var e := LateInsert(second, key);
  }

  lemma DecideDeletes(t: System, p: nat, envId: string, token: string, row: Row, key: KeyMap)
    requires Reachable(START, t.(threads := t.threads[p := Deciding(envId, token, Some(row))]), key)
    requires t.now > row.expiresAt
    ensures Reachable(START, t.(threads := t.threads[p := Deleting(envId)]), key)
  {
    var deciding := t.(threads := t.threads[p := Deciding(envId, token, Some(row))]);
    ReachableStep(START, deciding, Decide(p), key);
    assert Step(deciding, Decide(p), key) == deciding.(threads := deciding.threads[p := Deleting(envId)]);
    assert deciding.threads[p := Deleting(envId)] == t.threads[p := Deleting(envId)];
  }

  /** After a pairing has expired, a thread has read its row and is about to delete it. */
  lemma PendingDelete(key: KeyMap) returns (e: System)
    ensures Reachable(START, e, key) && e.durable && e.lock.None? && e.threads == map[2 := Deleting("env")]
    ensures "c2" !in e.issued && "t2" !in e.minted
  {
    assert Run(START, [], key) == START;
    var first := OnePairing(START, 1, "c1", "t1", key);
    ReachableStep(START, first, Tick(TOKEN_LIFETIME + 1), key);
    var late := first.(now := first.now + TOKEN_LIFETIME + 1);
    LookupThenFetch(late, 2, "env", "other", key);
    DecideDeletes(late, 2, "env", "other", Row("t1", TOKEN_LIFETIME), key);
    e := late.(threads := late.threads[2 := Deleting("env")]);
  }

  lemma LateDelete(t: System, key: KeyMap) returns (e: System)
    requires Reachable(START, t, key) && t.durable && t.lock.None? && t.threads == map[2 := Deleting("env")]
    requires CacheGrants(VaultOf(t), "env", "t2", t.now)
    ensures Reachable(START, e, key) && e.threads == map[] && e.lock.None?
    ensures CacheGrants(VaultOf(e), "env", "t2", e.now) && key("env") !in e.rows && !Agrees(VaultOf(e), key, e.now)
    ensures !Authorized(VaultOf(Step(e, Restart, key)), "env", key("env"), Some("t2"), e.now, true, Succeeds).1
  {
    e := RowDeleted(t, 2, Deleting("env"), Succeeds, key);
    ReachableStep(START, t, Delete(2, Succeeds), key);
    assert Step(t, Delete(2, Succeeds), key) == e;
  }

  /** Another reachable state in which cache and store disagree: a request that has read an expired row deletes the
      row that a second pairing has saved meanwhile. No thread is left, the token is live and was never superseded,
      but only the cache still knows it: after a restart it is refused. */
  lemma DeletionExample(key: KeyMap)
    ensures exists e :: Reachable(START, e, key) && e.threads == map[] && e.lock.None?
              && CacheGrants(VaultOf(e), "env", "t2", e.now) && key("env") !in e.rows && !Agrees(VaultOf(e), key, e.now)
              && !Authorized(VaultOf(Step(e, Restart, key)), "env", key("env"), Some("t2"), e.now, true, Succeeds).1
  {
    var pending := PendingDelete(key);
    var second := OnePairing(pending, 3, "c2", "t2", key);
    var e := LateDelete(second, key);
  }
}
