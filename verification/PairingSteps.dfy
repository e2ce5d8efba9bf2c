/** The same gateway with its requests cut at their lock boundaries: any number of threads
    interleave, and a restart may fall anywhere. */
module PairingSteps {
  import opened Model
  import opened BrowserTokens
  import opened TokenTheorems

  /** Where a request stands between two of its steps. The first three hold the gateway's lock. */
  datatype Thread =
    | Claimed(envId: string, code: string)
    | Minting(envId: string, token: string, expiresAt: int)
    | Saved(envId: string, token: string, expiresAt: int)
    | Fetching(envId: string, token: string)
    | Deciding(envId: string, token: string, row: Option<Row>)
    | Deleting(envId: string)
    | Inserting(envId: string, token: string, expiresAt: int, decidedAt: int)

  datatype Claim = Claim(envId: string, at: int)

  datatype Mint = Mint(code: string, envId: string, expiresAt: int)

  datatype Grant = Grant(envId: string, token: string, decidedAt: int)

  /** The gateway and its store, followed by a record of what has happened so far. */
  datatype System = System(
    now: int,
    pairing: map<string, PairingCode>,
    cache: map<string, BrowserToken>,
    rows: map<string, Row>,
    durable: bool,
    lock: Option<nat>,
    threads: map<nat, Thread>,
    issued: map<string, PairingCode>,
    claimed: map<string, Claim>,
    minted: map<string, Mint>,
    grants: seq<Grant>)

  datatype Action =
    | Tick(seconds: nat)
    | Generate(envId: string, code: string)
    | ClaimCode(p: nat, envId: string, code: string)
    | DrawToken(p: nat, token: string)
    | Save(p: nat, fate: Fate)
    | Publish(p: nat)
    | Lookup(p: nat, envId: string, token: string)
    | Fetch(p: nat, reachable: bool)
    | Decide(p: nat)
    | Delete(p: nat, fate: Fate)
    | Insert(p: nat)
    | Restart

  /** Codes and tokens are random: a code is never issued twice and a token never drawn twice. */
  predicate Enabled(s: System, a: Action) {
    match a
    case Tick(_) => true
    case Generate(_, code) => s.lock.None? && code !in s.issued
    case ClaimCode(p, _, _) => s.lock.None? && p !in s.threads
    case DrawToken(p, token) => p in s.threads && s.threads[p].Claimed? && token !in s.minted
    case Save(p, _) => p in s.threads && s.threads[p].Minting? && s.durable
    case Publish(p) => p in s.threads && (s.threads[p].Saved? || (s.threads[p].Minting? && !s.durable))
    case Lookup(p, _, _) => s.lock.None? && p !in s.threads
    case Fetch(p, _) => p in s.threads && s.threads[p].Fetching?
    case Decide(p) => p in s.threads && s.threads[p].Deciding?
    case Delete(p, _) => p in s.threads && s.threads[p].Deleting?
    case Insert(p) => s.lock.None? && p in s.threads && s.threads[p].Inserting?
    case Restart => true
  }

  function Generated(s: System, envId: string, code: string): System {
    var entry := PairingCode(envId, s.now + PAIRING_LIFETIME);
    s.(pairing := s.pairing[code := entry], issued := s.issued[code := entry])
  }

  function CodeClaimed(s: System, p: nat, envId: string, code: string): System {
    if code in s.pairing && s.pairing[code].envId == envId && s.now <= s.pairing[code].expiresAt then
      s.(pairing := s.pairing - {code}, lock := Some(p), threads := s.threads[p := Claimed(envId, code)],
         claimed := s.claimed[code := Claim(envId, s.now)])
    else s
  }

  function TokenDrawn(s: System, p: nat, th: Thread, token: string): System
    requires th.Claimed?
  {
    var expires := s.now + TOKEN_LIFETIME;
    s.(threads := s.threads[p := Minting(th.envId, token, expires)],
       minted := s.minted[token := Mint(th.code, th.envId, expires)])
  }

  function RowSaved(s: System, p: nat, th: Thread, fate: Fate, key: KeyMap): System
    requires th.Minting?
  {
    var saved := if Lands(fate) then s.rows[key(th.envId) := Row(th.token, th.expiresAt)] else s.rows;
    if ErrorOf(fate).Some? then s.(rows := saved, lock := None, threads := s.threads - {p})
    else s.(rows := saved, threads := s.threads[p := Saved(th.envId, th.token, th.expiresAt)])
  }

  function Published(s: System, p: nat, th: Thread): System
    requires th.Minting? || th.Saved?
  {
    s.(cache := Purge(s.cache, th.envId)[th.token := BrowserToken(th.token, th.envId, th.expiresAt)],
       lock := None, threads := s.threads - {p})
  }

  function LookedUp(s: System, p: nat, envId: string, token: string): System {
    if token in s.cache && s.cache[token].envId == envId && s.now < s.cache[token].expiresAt then
      s.(grants := s.grants + [Grant(envId, token, s.now)])
    else if !s.durable then s
    else s.(threads := s.threads[p := Fetching(envId, token)])
  }

  function Fetched(s: System, p: nat, th: Thread, reachable: bool, key: KeyMap): System
    requires th.Fetching?
  {
    if !reachable then s.(threads := s.threads - {p})
    else
      var row := if key(th.envId) in s.rows then Some(s.rows[key(th.envId)]) else None;
      s.(threads := s.threads[p := Deciding(th.envId, th.token, row)])
  }

  function Decided(s: System, p: nat, th: Thread): System
    requires th.Deciding?
  {
    if th.row.None? then s.(threads := s.threads - {p})
    else if th.row.value.token == th.token && s.now <= th.row.value.expiresAt then
      s.(threads := s.threads[p := Inserting(th.envId, th.token, th.row.value.expiresAt, s.now)])
    else if s.now > th.row.value.expiresAt then s.(threads := s.threads[p := Deleting(th.envId)])
    else s.(threads := s.threads - {p})
  }

  function RowDeleted(s: System, p: nat, th: Thread, fate: Fate, key: KeyMap): System
    requires th.Deleting?
  {
    s.(rows := if Lands(fate) then s.rows - {key(th.envId)} else s.rows, threads := s.threads - {p})
  }

  function Inserted(s: System, p: nat, th: Thread): System
    requires th.Inserting?
  {
    s.(cache := s.cache[th.token := BrowserToken(th.token, th.envId, th.expiresAt)],
       threads := s.threads - {p}, grants := s.grants + [Grant(th.envId, th.token, th.decidedAt)])
  }

  /** One step; an action that is not enabled changes nothing. */
  function Step(s: System, a: Action, key: KeyMap): System {
    if !Enabled(s, a) then s
    else match a
      case Tick(seconds) => s.(now := s.now + seconds)
      case Generate(env, code) => Generated(s, env, code)
      case ClaimCode(p, env, code) => CodeClaimed(s, p, env, code)
      case DrawToken(p, token) => TokenDrawn(s, p, s.threads[p], token)
      case Save(p, fate) => RowSaved(s, p, s.threads[p], fate, key)
      case Publish(p) => Published(s, p, s.threads[p])
      case Lookup(p, env, token) => LookedUp(s, p, env, token)
      case Fetch(p, reachable) => Fetched(s, p, s.threads[p], reachable, key)
      case Decide(p) => Decided(s, p, s.threads[p])
      case Delete(p, fate) => RowDeleted(s, p, s.threads[p], fate, key)
      case Insert(p) => Inserted(s, p, s.threads[p])
      case Restart => s.(pairing := map[], cache := map[], lock := None, threads := map[])
  }

  function Run(s: System, actions: seq<Action>, key: KeyMap): System {
    if actions == [] then s else Step(Run(s, actions[..|actions| - 1], key), actions[|actions| - 1], key)
  }

  // ---------------------------------------------------------------- the invariant

  ghost predicate CodesOk(
    pairing: map<string, PairingCode>, issued: map<string, PairingCode>, claimed: map<string, Claim>)
  {
    && (forall c | c in pairing :: c in issued && pairing[c] == issued[c] && c !in claimed)
    && (forall c | c in claimed ::
          c in issued && claimed[c].envId == issued[c].envId && claimed[c].at <= issued[c].expiresAt)
  }

  ghost predicate MintsOk(claimed: map<string, Claim>, minted: map<string, Mint>) {
    && (forall t | t in minted :: minted[t].code in claimed && claimed[minted[t].code].envId == minted[t].envId)
    && (forall t, u | t in minted && u in minted && minted[t].code == minted[u].code :: t == u)
  }

  /** The token was minted for that environment with that expiry. */
  predicate Genuine(minted: map<string, Mint>, envId: string, token: string, expiresAt: int) {
    token in minted && minted[token].envId == envId && minted[token].expiresAt == expiresAt
  }

  predicate RowOk(minted: map<string, Mint>, key: KeyMap, k: string, row: Row) {
    row.token in minted && row.expiresAt == minted[row.token].expiresAt && key(minted[row.token].envId) == k
  }

  ghost predicate CacheOk(cache: map<string, BrowserToken>, minted: map<string, Mint>) {
    forall t | t in cache :: cache[t].token == t && Genuine(minted, cache[t].envId, t, cache[t].expiresAt)
  }

  ghost predicate RowsOk(rows: map<string, Row>, minted: map<string, Mint>, key: KeyMap) {
    forall k | k in rows :: RowOk(minted, key, k, rows[k])
  }

  ghost predicate GrantsOk(grants: seq<Grant>, minted: map<string, Mint>) {
    forall g | g in grants ::
      g.token in minted && minted[g.token].envId == g.envId && g.decidedAt <= minted[g.token].expiresAt
  }

  ghost predicate ThreadOk(
    lock: Option<nat>, claimed: map<string, Claim>, minted: map<string, Mint>, key: KeyMap, p: nat, th: Thread)
  {
    match th
    case Claimed(env, code) =>
      lock == Some(p) && code in claimed && claimed[code].envId == env
          && forall t | t in minted :: minted[t].code != code
    case Minting(env, token, expires) => lock == Some(p) && Genuine(minted, env, token, expires)
    case Saved(env, token, expires) => lock == Some(p) && Genuine(minted, env, token, expires)
    case Fetching(_, _) => true
    case Deciding(env, _, row) => row.Some? ==> RowOk(minted, key, key(env), row.value)
    case Deleting(_) => true
    case Inserting(env, token, expires, at) => Genuine(minted, env, token, expires) && at <= expires
  }

  ghost predicate ThreadsOk(
    threads: map<nat, Thread>, lock: Option<nat>, claimed: map<string, Claim>, minted: map<string, Mint>, key: KeyMap)
  {
    forall p | p in threads :: ThreadOk(lock, claimed, minted, key, p, threads[p])
  }

  ghost predicate Inv(s: System, key: KeyMap) {
    && CodesOk(s.pairing, s.issued, s.claimed)
    && MintsOk(s.claimed, s.minted)
    && CacheOk(s.cache, s.minted)
    && RowsOk(s.rows, s.minted, key)
    && GrantsOk(s.grants, s.minted)
    && ThreadsOk(s.threads, s.lock, s.claimed, s.minted, key)
  }

  lemma GenerateKeepsInv(s: System, envId: string, code: string, key: KeyMap)
    requires Inv(s, key) && code !in s.issued
    ensures Inv(Generated(s, envId, code), key)
  {}

  lemma ClaimKeepsInv(s: System, p: nat, envId: string, code: string, key: KeyMap)
    requires Inv(s, key) && s.lock.None? && p !in s.threads
    ensures Inv(CodeClaimed(s, p, envId, code), key)
  {
    var t := CodeClaimed(s, p, envId, code);
    forall q | q in t.threads ensures ThreadOk(t.lock, t.claimed, t.minted, key, q, t.threads[q]) {
      if q in s.threads { assert ThreadOk(s.lock, s.claimed, s.minted, key, q, s.threads[q]); }
    }
  }

  lemma DrawKeepsInv(s: System, p: nat, token: string, key: KeyMap)
    requires Inv(s, key) && p in s.threads && s.threads[p].Claimed? && token !in s.minted
    ensures Inv(TokenDrawn(s, p, s.threads[p], token), key)
  {
    var t := TokenDrawn(s, p, s.threads[p], token);
    assert ThreadOk(s.lock, s.claimed, s.minted, key, p, s.threads[p]);
    forall q | q in t.threads ensures ThreadOk(t.lock, t.claimed, t.minted, key, q, t.threads[q]) {
      assert ThreadOk(s.lock, s.claimed, s.minted, key, q, s.threads[q]);
    }
    forall k | k in s.rows ensures RowOk(t.minted, key, k, s.rows[k]) {
      assert RowOk(s.minted, key, k, s.rows[k]);
    }
  }

  /** Releasing the lock: its holder is the only thread that relies on it. */
  lemma ThreadsUnlocked(s: System, p: nat, key: KeyMap)
    requires Inv(s, key) && p in s.threads && s.lock == Some(p)
    ensures ThreadsOk(s.threads - {p}, None, s.claimed, s.minted, key)
  {
    forall q | q in s.threads - {p} ensures ThreadOk(None, s.claimed, s.minted, key, q, s.threads[q]) {
      assert ThreadOk(s.lock, s.claimed, s.minted, key, q, s.threads[q]);
    }
  }

  lemma SaveKeepsInv(s: System, p: nat, fate: Fate, key: KeyMap)
    requires Inv(s, key) && p in s.threads && s.threads[p].Minting?
    ensures Inv(RowSaved(s, p, s.threads[p], fate, key), key)
  {
    assert ThreadOk(s.lock, s.claimed, s.minted, key, p, s.threads[p]);
    ThreadsUnlocked(s, p, key);
  }

  lemma PublishKeepsInv(s: System, p: nat, key: KeyMap)
    requires Inv(s, key) && p in s.threads && (s.threads[p].Minting? || s.threads[p].Saved?)
    ensures Inv(Published(s, p, s.threads[p]), key)
  {
    assert ThreadOk(s.lock, s.claimed, s.minted, key, p, s.threads[p]);
    ThreadsUnlocked(s, p, key);
  }

  /** A thread may leave, and move to any position that suits the rest of the state. */
  lemma ThreadMoves(s: System, p: nat, th: Thread, key: KeyMap)
    requires Inv(s, key)
    ensures ThreadsOk(s.threads - {p}, s.lock, s.claimed, s.minted, key)
    ensures ThreadOk(s.lock, s.claimed, s.minted, key, p, th) ==>
              ThreadsOk(s.threads[p := th], s.lock, s.claimed, s.minted, key)
  {}

  lemma LookupKeepsInv(s: System, p: nat, envId: string, token: string, key: KeyMap)
    requires Inv(s, key)
    ensures Inv(LookedUp(s, p, envId, token), key)
  {
    ThreadMoves(s, p, Fetching(envId, token), key);
  }

  lemma FetchKeepsInv(s: System, p: nat, reachable: bool, key: KeyMap)
    requires Inv(s, key) && p in s.threads && s.threads[p].Fetching?
    ensures Inv(Fetched(s, p, s.threads[p], reachable, key), key)
  {}

  lemma DecideKeepsInv(s: System, p: nat, key: KeyMap)
    requires OneToOne(key) && Inv(s, key) && p in s.threads && s.threads[p].Deciding?
    ensures Inv(Decided(s, p, s.threads[p]), key)
  {
    var th := s.threads[p];
    assert ThreadOk(s.lock, s.claimed, s.minted, key, p, th);
    var to := match th.row
      case Some(row) => if s.now <= row.expiresAt then Inserting(th.envId, th.token, row.expiresAt, s.now)
          else Deleting(th.envId)
      case None => th;
    ThreadMoves(s, p, to, key);
    if th.row.Some? && th.row.value.token == th.token && s.now <= th.row.value.expiresAt {
      assert ThreadOk(s.lock, s.claimed, s.minted, key, p, to);
    }
  }

  lemma InsertKeepsInv(s: System, p: nat, key: KeyMap)
    requires Inv(s, key) && p in s.threads && s.threads[p].Inserting?
    ensures Inv(Inserted(s, p, s.threads[p]), key)
  {
    assert ThreadOk(s.lock, s.claimed, s.minted, key, p, s.threads[p]);
  }

  lemma StepKeepsInv(s: System, a: Action, key: KeyMap)
    requires OneToOne(key) && Inv(s, key)
    ensures Inv(Step(s, a, key), key)
  {
    if Enabled(s, a) {
      match a
      case Generate(env, code) => GenerateKeepsInv(s, env, code, key);
      case ClaimCode(p, env, code) => ClaimKeepsInv(s, p, env, code, key);
      case DrawToken(p, token) => DrawKeepsInv(s, p, token, key);
      case Save(p, fate) => SaveKeepsInv(s, p, fate, key);
      case Publish(p) => PublishKeepsInv(s, p, key);
      case Lookup(p, env, token) => LookupKeepsInv(s, p, env, token, key);
      case Fetch(p, reachable) => FetchKeepsInv(s, p, reachable, key);
      case Decide(p) => DecideKeepsInv(s, p, key);
      case Insert(p) => InsertKeepsInv(s, p, key);
      case _ =>
    }
  }

  lemma {:induction false} RunKeepsInv(s: System, actions: seq<Action>, key: KeyMap)
    requires OneToOne(key) && Inv(s, key)
    ensures Inv(Run(s, actions, key), key)
  {
    if actions == [] {
    } else {
      RunKeepsInv(s, actions[..|actions| - 1], key);
      StepKeepsInv(Run(s, actions[..|actions| - 1], key), actions[|actions| - 1], key);
    }
  }

  // ---------------------------------------------------------------- what follows for every interleaving

  /** Before anything happened, over the rows an earlier gateway left behind. */
  ghost predicate Fresh(s: System, key: KeyMap) {
    s.pairing == map[] && s.cache == map[] && s.lock.None? && s.threads == map[] && s.grants == [] && Inv(s, key)
  }

  /** The token was minted by a bootstrap that used up a code of that environment while the code was live. */
  predicate PairedFor(s: System, envId: string, token: string) {
    && token in s.minted && s.minted[token].envId == envId
    && var code := s.minted[token].code;
       && code in s.claimed && s.claimed[code].envId == envId
       && code in s.issued && s.issued[code].envId == envId && s.claimed[code].at <= s.issued[code].expiresAt
  }

  /** In every interleaving, restarts included: every grant is for a token paired for that same environment and
      decided no later than the token's minted expiry; cached copies and rows carry exactly that expiry; and no
      code has yielded two tokens, even when a save failed. */
  lemma PairingSafety(s: System, actions: seq<Action>, key: KeyMap)
    requires OneToOne(key) && Fresh(s, key)
    ensures var e := Run(s, actions, key);
            && (forall g | g in e.grants ::
                  PairedFor(e, g.envId, g.token) && g.decidedAt <= e.minted[g.token].expiresAt)
            && (forall t | t in e.cache ::
                  PairedFor(e, e.cache[t].envId, t) && e.cache[t].expiresAt == e.minted[t].expiresAt)
            && (forall k | k in e.rows ::
                  && e.rows[k].token in e.minted && e.rows[k].expiresAt == e.minted[e.rows[k].token].expiresAt
                  && key(e.minted[e.rows[k].token].envId) == k)
            && (forall t, u | t in e.minted && u in e.minted && e.minted[t].code == e.minted[u].code :: t == u)
  {
    RunKeepsInv(s, actions, key);
    var e := Run(s, actions, key);
    forall k | k in e.rows ensures RowOk(e.minted, key, k, e.rows[k]) {}
  }

  /** The part of the state that the sequential model talks about. */
  function VaultOf(s: System): Vault {
    Vault(s.pairing, s.cache, s.rows, s.durable)
  }

  /** The state with thread `p` at a given position. */
  function At(s: System, p: nat, th: Thread): System {
    s.(threads := s.threads[p := th])
  }

  lemma MovesOn(s: System, p: nat, th: Thread, to: Thread)
    requires p !in s.threads
    ensures At(s, p, th).threads[p := to] == At(s, p, to).threads && At(s, p, th).threads - {p} == s.threads
  {}

  /** A generation is one step, and the request of the sequential model. */
  lemma UndisturbedGenerate(s: System, envId: string, code: string, key: KeyMap)
    requires s.lock.None? && code !in s.issued
    ensures var e := Step(s, Action.Generate(envId, code), key);
            && VaultOf(e) == BrowserTokens.Generated(VaultOf(s), envId, code, s.now)
            && e == s.(pairing := e.pairing, issued := s.issued[code := e.pairing[code]])
  {}

  /** The four steps of a bootstrap by thread `p`, with nothing in between. A step that is not enabled is skipped. */
  function BootstrapAlone(s: System, p: nat, envId: string, code: string, token: string, save: Fate, key: KeyMap)
    : System
  {
    var drawn := Step(Step(s, ClaimCode(p, envId, code), key), DrawToken(p, token), key);
    Step(Step(drawn, Save(p, save), key), Publish(p), key)
  }

  lemma DrawnAlone(s: System, p: nat, envId: string, code: string, token: string, key: KeyMap)
    requires s.lock.None? && p !in s.threads && token !in s.minted && LiveCode(VaultOf(s), envId, code, s.now)
    ensures Step(Step(s, ClaimCode(p, envId, code), key), DrawToken(p, token), key) ==
            At(s, p, Minting(envId, token, s.now + TOKEN_LIFETIME)).(
              pairing := s.pairing - {code}, lock := Some(p), claimed := s.claimed[code := Claim(envId, s.now)],
              minted := s.minted[token := Mint(code, envId, s.now + TOKEN_LIFETIME)])
  {
    MovesOn(s, p, Claimed(envId, code), Minting(envId, token, s.now + TOKEN_LIFETIME));
    assert Step(s, ClaimCode(p, envId, code), key) == CodeClaimed(s, p, envId, code);
  }

  lemma MintedAlone(s: System, p: nat, envId: string, token: string, save: Fate, key: KeyMap)
    requires p in s.threads && s.threads[p] == Minting(envId, token, s.now + TOKEN_LIFETIME)
    ensures var minted := BrowserToken(token, envId, s.now + TOKEN_LIFETIME);
            var rows := if s.durable && Lands(save) then s.rows[key(envId) := Row(token, minted.expiresAt)] else s.rows;
            var failed := s.durable && ErrorOf(save).Some?;
            Step(Step(s, Save(p, save), key), Publish(p), key) ==
            s.(rows := rows, cache := if failed then s.cache else Purge(s.cache, envId)[token := minted],
               lock := None, threads := s.threads - {p})
  {
    if s.durable {
      var saved := RowSaved(s, p, s.threads[p], save, key);
      assert Step(s, Save(p, save), key) == saved;
      assert saved.threads - {p} == s.threads - {p};
    }
  }

  /** Undisturbed, the four steps are the whole request of the sequential model, and leave no trace of the thread. */
  lemma UndisturbedBootstrap(s: System, p: nat, envId: string, code: string, token: string, save: Fate, key: KeyMap)
    requires s.lock.None? && p !in s.threads && token !in s.minted
    ensures var e := BootstrapAlone(s, p, envId, code, token, save, key);
            && VaultOf(e) == Bootstrapped(VaultOf(s), envId, key(envId), code, token, s.now, save).0
            && e.threads == s.threads && e.lock.None? && e.grants == s.grants
            && (token in e.minted <==> LiveCode(VaultOf(s), envId, code, s.now))
  {
    if LiveCode(VaultOf(s), envId, code, s.now) {
      DrawnAlone(s, p, envId, code, token, key);
      var drawn := At(s, p, Minting(envId, token, s.now + TOKEN_LIFETIME)).(
        pairing := s.pairing - {code}, lock := Some(p), claimed := s.claimed[code := Claim(envId, s.now)],
        minted := s.minted[token := Mint(code, envId, s.now + TOKEN_LIFETIME)]);
      MintedAlone(drawn, p, envId, token, save, key);
      assert drawn.threads - {p} == s.threads;
    } else {
      assert Step(s, ClaimCode(p, envId, code), key) == s;
    }
  }

  /** The last step of an authorization: delete the row, cache the token, or nothing. */
  function Finished(s: System, p: nat, delete: Fate, key: KeyMap): System {
    Step(Step(s, Delete(p, delete), key), Insert(p), key)
  }

  /** The steps of an authorization by thread `p`, with nothing in between. */
  function AuthorizeAlone(
    s: System, p: nat, envId: string, token: string, reachable: bool, delete: Fate, key: KeyMap): System
  {
    var fetched := Step(Step(s, Lookup(p, envId, token), key), Fetch(p, reachable), key);
    Finished(Step(fetched, Decide(p), key), p, delete, key)
  }

  lemma FinishedAlone(s: System, p: nat, th: Thread, delete: Fate, key: KeyMap)
    requires s.lock.None? && p !in s.threads && (th.Deleting? || th.Inserting?)
    ensures Finished(s, p, delete, key) == s
    ensures Finished(At(s, p, th), p, delete, key) ==
            if th.Deleting? then s.(rows := if Lands(delete) then s.rows - {key(th.envId)} else s.rows)
            else s.(cache := s.cache[th.token := BrowserToken(th.token, th.envId, th.expiresAt)],
                    grants := s.grants + [Grant(th.envId, th.token, th.decidedAt)])
  {
    MovesOn(s, p, th, th);
    if th.Deleting? {
      assert Step(At(s, p, th), Delete(p, delete), key) == RowDeleted(At(s, p, th), p, th, delete, key);
    } else {
      assert Step(At(s, p, th), Delete(p, delete), key) == At(s, p, th);
    }
  }

  /** What a request that has read `row` makes of it, in one piece. */
  function Answered(s: System, envId: string, token: string, row: Option<Row>, delete: Fate, key: KeyMap): System {
    if row.Some? && row.value.token == token && s.now <= row.value.expiresAt then
      s.(cache := s.cache[token := BrowserToken(token, envId, row.value.expiresAt)],
         grants := s.grants + [Grant(envId, token, s.now)])
    else if row.Some? && s.now > row.value.expiresAt then
      s.(rows := if Lands(delete) then s.rows - {key(envId)} else s.rows)
    else s
  }

  lemma DecidedTo(s: System, p: nat, envId: string, token: string, row: Option<Row>)
    requires p !in s.threads
    ensures var reading := Deciding(envId, token, row);
            var decided := Decided(At(s, p, reading), p, reading);
            if row.Some? && row.value.token == token && s.now <= row.value.expiresAt then
              decided == At(s, p, Inserting(envId, token, row.value.expiresAt, s.now))
            else if row.Some? && s.now > row.value.expiresAt then decided == At(s, p, Deleting(envId))
            else decided == s
  {
    var reading := Deciding(envId, token, row);
    if row.Some? && row.value.token == token && s.now <= row.value.expiresAt {
      MovesOn(s, p, reading, Inserting(envId, token, row.value.expiresAt, s.now));
    } else {
      MovesOn(s, p, reading, Deleting(envId));
    }
  }

  lemma DecidedAlone(s: System, p: nat, envId: string, token: string, row: Option<Row>, delete: Fate, key: KeyMap)
    requires s.lock.None? && p !in s.threads
    ensures var reading := Deciding(envId, token, row);
            Finished(Decided(At(s, p, reading), p, reading), p, delete, key)
                == Answered(s, envId, token, row, delete, key)
  {
    var to :=
      if row.Some? && row.value.token == token && s.now <= row.value.expiresAt then
        Inserting(envId, token, row.value.expiresAt, s.now)
      else Deleting(envId);
    DecidedTo(s, p, envId, token, row);
    FinishedAlone(s, p, to, delete, key);
  }

  lemma ReadAlone(s: System, p: nat, envId: string, token: string, reachable: bool, key: KeyMap)
    requires p !in s.threads
    ensures Step(Step(s, Fetch(p, reachable), key), Decide(p), key) == s
    ensures var row := if key(envId) in s.rows then Some(s.rows[key(envId)]) else None;
            var reading := Deciding(envId, token, row);
            Step(Step(At(s, p, Fetching(envId, token)), Fetch(p, reachable), key), Decide(p), key) ==
            if reachable then Decided(At(s, p, reading), p, reading) else s
  {
    var row := if key(envId) in s.rows then Some(s.rows[key(envId)]) else None;
    var asking := At(s, p, Fetching(envId, token));
    MovesOn(s, p, Fetching(envId, token), Deciding(envId, token, row));
    assert Step(asking, Fetch(p, reachable), key) == Fetched(asking, p, Fetching(envId, token), reachable, key);
  }

  lemma LookedTo(s: System, p: nat, envId: string, token: string, key: KeyMap)
    requires s.lock.None? && p !in s.threads
    ensures Step(s, Lookup(p, envId, token), key) ==
            if CacheGrants(VaultOf(s), envId, token, s.now) then s.(grants := s.grants + [Grant(envId, token, s.now)])
            else if s.durable then At(s, p, Fetching(envId, token))
            else s
  {}

  /** The whole authorization in one piece. */
  lemma AuthorizedAlone(s: System, p: nat, envId: string, token: string, reachable: bool, delete: Fate, key: KeyMap)
    requires s.lock.None? && p !in s.threads
    ensures var row := if key(envId) in s.rows then Some(s.rows[key(envId)]) else None;
            AuthorizeAlone(s, p, envId, token, reachable, delete, key) ==
            if CacheGrants(VaultOf(s), envId, token, s.now) then s.(grants := s.grants + [Grant(envId, token, s.now)])
            else if s.durable && reachable then Answered(s, envId, token, row, delete, key)
            else s
  {
    var row := if key(envId) in s.rows then Some(s.rows[key(envId)]) else None;
    LookedTo(s, p, envId, token, key);
    ReadAlone(s, p, envId, token, reachable, key);
    DecidedAlone(s, p, envId, token, row, delete, key);
    FinishedAlone(s, p, Deleting(envId), delete, key);
    if CacheGrants(VaultOf(s), envId, token, s.now) {
      var granted := s.(grants := s.grants + [Grant(envId, token, s.now)]);
      ReadAlone(granted, p, envId, token, reachable, key);
      FinishedAlone(granted, p, Deleting(envId), delete, key);
    }
  }

  /** The state after a request of the sequential model, with its grant on record. */
  function Recorded(s: System, envId: string, token: string, result: (Vault, bool)): System {
    s.(pairing := result.0.pairing, cache := result.0.cache, rows := result.0.rows,
       grants := if result.1 then s.grants + [Grant(envId, token, s.now)] else s.grants)
  }

  lemma AnsweredRecorded(s: System, envId: string, token: string, delete: Fate, key: KeyMap)
    requires s.durable && !CacheGrants(VaultOf(s), envId, token, s.now)
    ensures var row := if key(envId) in s.rows then Some(s.rows[key(envId)]) else None;
            Answered(s, envId, token, row, delete, key) ==
            Recorded(s, envId, token, Authorized(VaultOf(s), envId, key(envId), Some(token), s.now, true, delete))
  {}

  lemma SettledWithoutRow(s: System, envId: string, token: string, reachable: bool, delete: Fate, key: KeyMap)
    requires CacheGrants(VaultOf(s), envId, token, s.now) || !s.durable || !reachable
    ensures Recorded(s, envId, token,
        Authorized(VaultOf(s), envId, key(envId), Some(token), s.now, reachable, delete)) ==
            if CacheGrants(VaultOf(s), envId, token, s.now) then s.(grants := s.grants + [Grant(envId, token, s.now)])
                else s
  {}

  /** Undisturbed, they too are the whole request, and a grant is recorded exactly when the request is granted. */
  lemma UndisturbedAuthorize(s: System, p: nat, envId: string, token: string, reachable: bool, delete: Fate,
      key: KeyMap)
    requires s.lock.None? && p !in s.threads
    ensures AuthorizeAlone(s, p, envId, token, reachable, delete, key) ==
            Recorded(s, envId, token, Authorized(VaultOf(s), envId, key(envId), Some(token), s.now, reachable, delete))
  {
    AuthorizedAlone(s, p, envId, token, reachable, delete, key);
    if CacheGrants(VaultOf(s), envId, token, s.now) || !s.durable || !reachable {
      SettledWithoutRow(s, envId, token, reachable, delete, key);
    } else {
      AnsweredRecorded(s, envId, token, delete, key);
    }
  }

  // ---------------------------------------------------------------- without a store

  /** The last token published for every environment since the last restart. */
  function LatestAfter(s: System, a: Action, latest: Latest): Latest {
    if a.Restart? then map[]
    else if a.Publish? && Enabled(s, a) then
      var th := s.threads[a.p];
      latest[th.envId := BrowserToken(th.token, th.envId, th.expiresAt)]
    else latest
  }

  function LatestOf(s: System, actions: seq<Action>, key: KeyMap): Latest {
    if actions == [] then map[]
    else
      var init := actions[..|actions| - 1];
      LatestAfter(Run(s, init, key), actions[|actions| - 1], LatestOf(s, init, key))
  }

  /** Without a store the only requests that ever wait between two steps are bootstraps. */
  predicate OnlyMinting(threads: map<nat, Thread>) {
    forall p | p in threads :: threads[p].Claimed? || threads[p].Minting?
  }

  /** A bootstrap that has drawn its token holds the lock, and a cached copy of that token would be the very same. */
  lemma MintingHolds(s: System, p: nat, key: KeyMap)
    requires Inv(s, key) && p in s.threads && s.threads[p].Minting?
    ensures var th := s.threads[p];
            && s.lock == Some(p)
            && (th.token in s.cache ==> s.cache[th.token] == BrowserToken(th.token, th.envId, th.expiresAt))
  {
    assert ThreadOk(s.lock, s.claimed, s.minted, key, p, s.threads[p]);
  }

  lemma PublishKeepsLatest(s: System, p: nat, key: KeyMap, latest: Latest)
    requires Mirrors(VaultOf(s), latest) && p in s.threads && s.threads[p].Minting?
    requires var th := s.threads[p]; th.token in s.cache ==> s.cache[th.token].envId == th.envId
    ensures Mirrors(VaultOf(Published(s, p, s.threads[p])), LatestAfter(s, Publish(p), latest))
  {
    var th := s.threads[p];
    Superseded(VaultOf(s), latest, BrowserToken(th.token, th.envId, th.expiresAt));
  }

  /** Only publications and restarts touch the cache then. */
  lemma OthersKeepCache(s: System, a: Action, key: KeyMap)
    requires !s.durable && OnlyMinting(s.threads)
    ensures OnlyMinting(Step(s, a, key).threads) && !Step(s, a, key).durable
    ensures !a.Publish? && !a.Restart? ==> Step(s, a, key).cache == s.cache
  {}

  lemma StepKeepsLatest(s: System, a: Action, key: KeyMap, latest: Latest)
    requires Inv(s, key) && Mirrors(VaultOf(s), latest) && OnlyMinting(s.threads)
    ensures Mirrors(VaultOf(Step(s, a, key)), LatestAfter(s, a, latest)) && OnlyMinting(Step(s, a, key).threads)
  {
    OthersKeepCache(s, a, key);
    if a.Publish? && Enabled(s, a) {
      MintingHolds(s, a.p, key);
      PublishKeepsLatest(s, a.p, key, latest);
    }
  }

  lemma {:induction false} RunKeepsLatest(s: System, actions: seq<Action>, key: KeyMap)
    requires OneToOne(key) && Fresh(s, key) && !s.durable
    ensures Mirrors(VaultOf(Run(s, actions, key)), LatestOf(s, actions, key))
        && OnlyMinting(Run(s, actions, key).threads)
  {
    if actions == [] {
    } else {
      var init := actions[..|actions| - 1];
      RunKeepsLatest(s, init, key);
      RunKeepsInv(s, init, key);
      StepKeepsLatest(Run(s, init, key), actions[|actions| - 1], key, LatestOf(s, init, key));
    }
  }

  /** In every interleaving without a store: one cached token per environment, and a request is granted exactly
      when it presents the token last published for its environment, strictly before that token expires. */
  lemma MemoryOnlyInterleaved(s: System, actions: seq<Action>, key: KeyMap, p: nat, envId: string, token: string)
    requires OneToOne(key) && Fresh(s, key) && !s.durable
    ensures var e, latest := Run(s, actions, key), LatestOf(s, actions, key);
            && (forall t, u | t in e.cache && u in e.cache && e.cache[t].envId == e.cache[u].envId :: t == u)
            && LookedUp(e, p, envId, token).grants ==
               e.grants + if envId in latest && latest[envId].token == token && e.now < latest[envId].expiresAt
                          then [Grant(envId, token, e.now)] else []
  {
    RunKeepsLatest(s, actions, key);
    var e, latest := Run(s, actions, key), LatestOf(s, actions, key);
    MemoryOnlyExact(VaultOf(e), latest, key, e.now, Authorize(0, envId, Some(token), true, Succeeds));
  }
}
