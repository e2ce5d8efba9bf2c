/** Sequential runs of the token gateway: the cache answers what the store would,
    and losing it is invisible. */
module TokenTheorems {
  import opened Model
  import opened BrowserTokens

  /** The store key of an environment; fixed and one-to-one. */
  type KeyMap = string -> string

  ghost predicate OneToOne(key: KeyMap) {
    forall a, b :: key(a) == key(b) ==> a == b
  }

  /** A cached token equals its store row or has already expired. */
  ghost predicate Agrees(v: Vault, key: KeyMap, now: int) {
    forall t | t in v.cache ::
      var c := v.cache[t];
      c.token == t
      && (now >= c.expiresAt || (key(c.envId) in v.rows && v.rows[key(c.envId)] == Row(t, c.expiresAt)))
  }

  datatype Op =
    | Generate(wait: nat, envId: string, code: string)
    | Bootstrap(wait: nat, envId: string, code: string, token: string, save: Fate)
    | Authorize(wait: nat, envId: string, presented: Option<string>, reachable: bool, delete: Fate)

  datatype Answer = Coded | Paired(result: Result<BrowserToken>) | Decided(granted: bool)

  function Perform(v: Vault, key: KeyMap, now: int, op: Op): (Vault, Answer) {
    match op
    case Generate(_, env, code) => (Generated(v, env, code, now), Coded)
    case Bootstrap(_, env, code, token, save) =>
      var (w, r) := Bootstrapped(v, env, key(env), code, token, now, save);
      (w, Paired(r))
    case Authorize(_, env, presented, reachable, delete) =>
      var (w, granted) := Authorized(v, env, key(env), presented, now, reachable, delete);
      (w, Decided(granted))
  }

  /** A failed save left the row alone. */
  predicate CleanSave(op: Op) {
    op.Bootstrap? ==> !op.save.FailsAfter?
  }

  lemma AgreesLater(v: Vault, key: KeyMap, now: int, later: int)
    requires Agrees(v, key, now) && now <= later
    ensures Agrees(v, key, later)
  {}

  /** The invariant of every sequential run. */
  lemma AgreementKept(v: Vault, key: KeyMap, now: int, op: Op)
    requires OneToOne(key) && v.durable && Agrees(v, key, now) && CleanSave(op)
    ensures Agrees(Perform(v, key, now, op).0, key, now)
  {}

  /** With a reachable store the answer is the row's answer: same token, not past its expiry.
      When the row cannot be read, only what the row would grant is granted. */
  lemma CacheRefinesStore(v: Vault, key: KeyMap, now: int, op: Op)
    requires v.durable && Agrees(v, key, now) && op.Authorize?
    ensures var granted := Perform(v, key, now, op).1.granted;
            var row := op.presented.Some? && RowGrants(v, key(op.envId), op.presented.value, now);
            if op.reachable then granted <==> row else granted ==> row
  {
    if op.presented.Some? && op.presented.value in v.cache {
      assert v.cache[op.presented.value].token == op.presented.value;
    }
  }

  /** Every token of the environment in this cache has expired, but for one that may be left out. */
  predicate Expired(cache: map<string, BrowserToken>, envId: string, now: int, except: Option<string>) {
    forall t | t in cache && cache[t].envId == envId && Some(t) != except :: now >= cache[t].expiresAt
  }

  function WithRow(v: Vault, key: KeyMap, b: BrowserToken): Vault {
    v.(rows := v.rows[key(b.envId) := Row(b.token, b.expiresAt)])
  }

  /** A row written ahead of the cache contradicts every other live token of its environment. */
  lemma RowAhead(v: Vault, key: KeyMap, now: int, b: BrowserToken)
    requires OneToOne(key) && Agrees(v, key, now)
    requires b.token in v.cache && v.cache[b.token].envId == b.envId ==> v.cache[b.token] == b
    ensures Agrees(WithRow(v, key, b), key, now) <==> Expired(v.cache, b.envId, now, Some(b.token))
  {
    forall t | t in v.cache && v.cache[t].envId != b.envId ensures key(v.cache[t].envId) != key(b.envId) {}
  }

  /** A row and a cache that change together keep the agreement. */
  lemma RowAndCache(v: Vault, key: KeyMap, now: int, b: BrowserToken)
    requires OneToOne(key) && Agrees(v, key, now)
    ensures Agrees(WithRow(v, key, b).(cache := Purge(v.cache, b.envId)[b.token := b]), key, now)
  {
    forall t | t in v.cache && v.cache[t].envId != b.envId ensures key(v.cache[t].envId) != key(b.envId) {}
  }

  /** A deleted row leaves the live tokens of its environment unbacked, and no others. */
  lemma RowGone(v: Vault, key: KeyMap, now: int, envId: string)
    requires OneToOne(key) && Agrees(v, key, now)
    ensures Agrees(v.(rows := v.rows - {key(envId)}), key, now) <==> Expired(v.cache, envId, now, None)
  {
    forall t | t in v.cache && v.cache[t].envId != envId ensures key(v.cache[t].envId) != key(envId) {}
  }

  /** A save that fails after writing breaks the agreement exactly when the environment still has a live
      cached token: the handler returns before the cache is purged. */
  lemma HalfSaveAgreement(v: Vault, key: KeyMap, now: int, op: Op)
    requires OneToOne(key) && v.durable && Agrees(v, key, now)
    requires op.Bootstrap? && op.save.FailsAfter? && LiveCode(v, op.envId, op.code, now) && op.token !in v.cache
    ensures Agrees(Perform(v, key, now, op).0, key, now) <==> Expired(v.cache, op.envId, now, None)
  {
    var b := BrowserToken(op.token, op.envId, now + TOKEN_LIFETIME);
    RowAhead(v, key, now, b);
    assert Agrees(WithRow(v, key, b), key, now) <==> Agrees(Perform(v, key, now, op).0, key, now);
  }

  /** A concrete run: pair, pair again with a save that writes but reports failure; the first token
      is still granted although the row holds the second one. */
  lemma HalfSaveExample()
    ensures var key: KeyMap := e => e;
            var v0 := Vault(map["c1" := PairingCode("env", 300), "c2" := PairingCode("env", 300)], map[], map[], true);
            var v1 := Perform(v0, key, 0, Bootstrap(0, "env", "c1", "t1", Succeeds)).0;
            var v2 := Perform(v1, key, 0, Bootstrap(0, "env", "c2", "t2", FailsAfter("timeout"))).0;
            && Perform(v2, key, 0, Authorize(0, "env", Some("t1"), true, Succeeds)).1 == Decided(true)
            && !RowGrants(v2, "env", "t1", 0) && RowGrants(v2, "env", "t2", 0)
  {
    var key: KeyMap := e => e;
    var v0 := Vault(map["c1" := PairingCode("env", 300), "c2" := PairingCode("env", 300)], map[], map[], true);
    var v1 := Perform(v0, key, 0, Bootstrap(0, "env", "c1", "t1", Succeeds)).0;
    assert v1.cache == map["t1" := BrowserToken("t1", "env", TOKEN_LIFETIME)];
    assert "c2" in v1.pairing;
  }

  // ---------------------------------------------------------------- restarts

  datatype Loss = Nothing | CacheOnly | Everything

  /** What a restart forgets before the next request: the token cache, or the pairing codes as well. */
  function Lose(v: Vault, loss: Loss): Vault {
    match loss
    case Nothing => v
    case CacheOnly => v.(cache := map[])
    case Everything => v.(cache := map[], pairing := map[])
  }

  function Answers(v: Vault, key: KeyMap, now: int, ops: seq<Op>, losses: seq<Loss>): seq<Answer>
    requires |ops| == |losses|
    decreases |ops|
  {
    if ops == [] then []
    else
      var at := now + ops[0].wait;
      var (next, answer) := Perform(Lose(v, losses[0]), key, at, ops[0]);
      [answer] + Answers(next, key, at, ops[1..], losses[1..])
  }

  /** The gateway and the clock at the end of a run. */
  function End(v: Vault, key: KeyMap, now: int, ops: seq<Op>, losses: seq<Loss>): (Vault, int)
    requires |ops| == |losses|
    decreases |ops|
  {
    if ops == [] then (v, now)
    else
      var at := now + ops[0].wait;
      End(Perform(Lose(v, losses[0]), key, at, ops[0]).0, key, at, ops[1..], losses[1..])
  }

  /** After every run, restarts included, cache and store agree: `CacheRefinesStore` applies to the next request. */
  lemma {:induction false} AgreementOverRuns(v: Vault, key: KeyMap, now: int, ops: seq<Op>, losses: seq<Loss>)
    requires |ops| == |losses| && OneToOne(key) && v.durable && Agrees(v, key, now)
    requires forall k | 0 <= k < |ops| :: CleanSave(ops[k])
    ensures var (w, at) := End(v, key, now, ops, losses); w.durable && Agrees(w, key, at)
    decreases |ops|
  {
    if ops == [] {
    } else {
      var at, forgot := now + ops[0].wait, Lose(v, losses[0]);
      AgreesLater(forgot, key, now, at);
      AgreementKept(forgot, key, at, ops[0]);
      AgreementOverRuns(Perform(forgot, key, at, ops[0]).0, key, at, ops[1..], losses[1..]);
    }
  }

  function Never(n: nat): seq<Loss> {
    seq(n, _ => Nothing)
  }

  /** Requests that a restart can be invisible to: saves are clean, reads succeed. */
  ghost predicate Benign(ops: seq<Op>) {
    forall k | 0 <= k < |ops| :: CleanSave(ops[k]) && (ops[k].Authorize? ==> ops[k].reachable)
  }

  /** No bootstrap redeems a code that a restart has forgotten; `lost` are the codes forgotten so far. */
  ghost predicate NoLostCode(v: Vault, key: KeyMap, now: int, ops: seq<Op>, losses: seq<Loss>, lost: set<string>)
    requires |ops| == |losses|
    decreases |ops|
  {
    ops == [] ||
    (var nowLost := if losses[0].Everything? then lost + v.pairing.Keys else lost;
     var at := now + ops[0].wait;
     && (ops[0].Bootstrap? ==> ops[0].code !in nowLost)
     && NoLostCode(Perform(Lose(v, losses[0]), key, at, ops[0]).0, key, at, ops[1..], losses[1..], nowLost))
  }

  /** Two gateways over the same store that differ in their caches and in the forgotten codes. */
  ghost predicate Twins(v: Vault, w: Vault, key: KeyMap, now: int, lost: set<string>) {
    && v.rows == w.rows && v.durable && w.durable
    && Agrees(v, key, now) && Agrees(w, key, now)
    && forall c | c !in lost :: (c in v.pairing <==> c in w.pairing)
        && (c in v.pairing ==> v.pairing[c] == w.pairing[c])
  }

  lemma TwinsStep(v: Vault, w: Vault, key: KeyMap, now: int, lost: set<string>, op: Op)
    requires OneToOne(key) && Twins(v, w, key, now, lost) && CleanSave(op)
    requires op.Authorize? ==> op.reachable
    requires op.Bootstrap? ==> op.code !in lost
    ensures Perform(v, key, now, op).1 == Perform(w, key, now, op).1
    ensures Twins(Perform(v, key, now, op).0, Perform(w, key, now, op).0, key, now, lost)
  {
    AgreementKept(v, key, now, op);
    AgreementKept(w, key, now, op);
    if op.Authorize? {
      CacheRefinesStore(v, key, now, op);
      CacheRefinesStore(w, key, now, op);
    }
  }

  /** Restarts, at any points of any run and as many as there are, change no answer, as long as nobody
      redeems a pairing code issued before one: outstanding codes are the only loss. */
  lemma {:induction false} RestartInvisible(
    v: Vault, w: Vault, key: KeyMap, now: int, ops: seq<Op>, losses: seq<Loss>, lost: set<string>)
    requires |ops| == |losses| && Benign(ops)
    requires OneToOne(key) && Twins(v, w, key, now, lost) && NoLostCode(w, key, now, ops, losses, lost)
    ensures Answers(v, key, now, ops, Never(|ops|)) == Answers(w, key, now, ops, losses)
    decreases |ops|
  {
    if ops == [] {
    } else {
      var at, forgot := now + ops[0].wait, Lose(w, losses[0]);
      var nowLost := if losses[0].Everything? then lost + w.pairing.Keys else lost;
      AgreesLater(v, key, now, at);
      AgreesLater(w, key, now, at);
      TwinsStep(v, forgot, key, at, nowLost, ops[0]);
      assert Never(|ops|)[1..] == Never(|ops[1..]|);
      forall k | 0 <= k < |ops[1..]| ensures ops[1..][k] == ops[k + 1] {}
      RestartInvisible(Perform(v, key, at, ops[0]).0, Perform(forgot, key, at, ops[0]).0, key, at, ops[1..],
          losses[1..], nowLost);
    }
  }

  lemma {:induction false} NothingLost(v: Vault, key: KeyMap, now: int, ops: seq<Op>, losses: seq<Loss>)
    requires |ops| == |losses| && forall k | 0 <= k < |losses| :: !losses[k].Everything?
    ensures NoLostCode(v, key, now, ops, losses, {})
    decreases |ops|
  {
    if ops == [] {
    } else {
      var at := now + ops[0].wait;
      NothingLost(Perform(Lose(v, losses[0]), key, at, ops[0]).0, key, at, ops[1..], losses[1..]);
    }
  }

  /** In particular the cache is an optimisation: a gateway that forgets it before every request,
      and so decides on the row alone, gives the same answers to every run. */
  lemma CacheIsInvisible(v: Vault, key: KeyMap, now: int, ops: seq<Op>, losses: seq<Loss>)
    requires |ops| == |losses| && Benign(ops) && OneToOne(key)
    requires v.durable && Agrees(v, key, now) && forall k | 0 <= k < |losses| :: !losses[k].Everything?
    ensures Answers(v, key, now, ops, losses) == Answers(v, key, now, ops, Never(|ops|))
  {
    NothingLost(v, key, now, ops, losses);
    RestartInvisible(v, v, key, now, ops, losses, {});
  }

  // ---------------------------------------------------------------- without a store

  /** The last successful bootstrap of every environment since the gateway started. */
  type Latest = map<string, BrowserToken>

  /** Without a store, the cache is exactly the last token of every environment. */
  ghost predicate Mirrors(v: Vault, latest: Latest) {
    && !v.durable
    && (forall e | e in latest ::
          latest[e].envId == e && latest[e].token in v.cache && v.cache[latest[e].token] == latest[e])
    && (forall t | t in v.cache ::
          v.cache[t].token == t && v.cache[t].envId in latest && latest[v.cache[t].envId] == v.cache[t])
  }

  function Track(latest: Latest, a: Answer): Latest {
    if a.Paired? && a.result.Ok? then latest[a.result.value.envId := a.result.value] else latest
  }

  /** A new token takes the place of its environment's last one, and of no other. */
  lemma Superseded(v: Vault, latest: Latest, b: BrowserToken)
    requires Mirrors(v, latest) && (b.token in v.cache ==> v.cache[b.token].envId == b.envId)
    ensures Mirrors(v.(cache := Purge(v.cache, b.envId)[b.token := b]), latest[b.envId := b])
  {}

  /** Every request keeps that, if bootstraps mint tokens that are not in use. */
  lemma MemoryOnlyKept(v: Vault, latest: Latest, key: KeyMap, now: int, op: Op)
    requires Mirrors(v, latest) && (op.Bootstrap? ==> op.token !in v.cache)
    ensures Mirrors(Perform(v, key, now, op).0, Track(latest, Perform(v, key, now, op).1))
  {
    if op.Bootstrap? {
      Superseded(v, latest, BrowserToken(op.token, op.envId, now + TOKEN_LIFETIME));
    }
  }

  function TrackRun(v: Vault, latest: Latest, key: KeyMap, now: int, ops: seq<Op>, losses: seq<Loss>): Latest
    requires |ops| == |losses|
    decreases |ops|
  {
    if ops == [] then latest
    else
      var at := now + ops[0].wait;
      var (w, answer) := Perform(Lose(v, losses[0]), key, at, ops[0]);
      TrackRun(w, Track(if losses[0].Nothing? then latest else map[], answer), key, at, ops[1..], losses[1..])
  }

  /** Every bootstrap draws a token that was never drawn before. */
  ghost predicate FreshTokens(ops: seq<Op>, drawn: set<string>)
    decreases |ops|
  {
    ops == [] ||
    if ops[0].Bootstrap? then ops[0].token !in drawn && FreshTokens(ops[1..], drawn + {ops[0].token})
    else FreshTokens(ops[1..], drawn)
  }

  /** Over every run, restarts included, the cache is the last token of every environment since the last restart. */
  lemma {:induction false} MemoryOnlyRuns(
    v: Vault, latest: Latest, key: KeyMap, now: int, ops: seq<Op>, losses: seq<Loss>, drawn: set<string>)
    requires |ops| == |losses| && Mirrors(v, latest) && v.cache.Keys <= drawn && FreshTokens(ops, drawn)
    ensures Mirrors(End(v, key, now, ops, losses).0, TrackRun(v, latest, key, now, ops, losses))
    decreases |ops|
  {
    if ops == [] {
    } else {
      var at, forgot := now + ops[0].wait, Lose(v, losses[0]);
      var kept := if losses[0].Nothing? then latest else map[];
      var (w, answer) := Perform(forgot, key, at, ops[0]);
      MemoryOnlyKept(forgot, kept, key, at, ops[0]);
      var more := if ops[0].Bootstrap? then drawn + {ops[0].token} else drawn;
      MemoryOnlyRuns(w, Track(kept, answer), key, at, ops[1..], losses[1..], more);
    }
  }

  /** Without a store, exactly the last token of the environment is granted, strictly before its expiry. */
  lemma MemoryOnlyExact(v: Vault, latest: Latest, key: KeyMap, now: int, op: Op)
    requires Mirrors(v, latest) && op.Authorize?
    ensures Perform(v, key, now, op).1.granted <==>
            && op.presented.Some? && op.envId in latest
            && latest[op.envId].token == op.presented.value && now < latest[op.envId].expiresAt
    ensures forall s, t | s in v.cache && t in v.cache && v.cache[s].envId == v.cache[t].envId :: s == t
  {
    forall s, t | s in v.cache && t in v.cache && v.cache[s].envId == v.cache[t].envId ensures s == t {
      assert latest[v.cache[s].envId] == v.cache[s] && latest[v.cache[t].envId] == v.cache[t];
    }
  }
}
