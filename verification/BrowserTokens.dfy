/** Pairing codes, the in-memory token cache and the store behind it, one request at a time. */
module BrowserTokens {
  import opened Model

  // Seconds.
  const PAIRING_LIFETIME := 5 * 60
  const TOKEN_LIFETIME := 24 * 60 * 60

  datatype PairingCode = PairingCode(envId: string, expiresAt: int)

  datatype BrowserToken = BrowserToken(token: string, envId: string, expiresAt: int)

  datatype Row = Row(token: string, expiresAt: int)

  /** The table `pairing_tokens`: one row per devcontainer. */
  class TokenStore {
    var rows: map<string, Row>

    method Save(key: string, token: string, expiresAt: int, fate: Fate) returns (err: Option<string>)
      modifies this
      ensures rows == (if Lands(fate) then old(rows)[key := Row(token, expiresAt)] else old(rows))
          && err == ErrorOf(fate)
    {
      if Lands(fate) { rows := rows[key := Row(token, expiresAt)]; }
      err := ErrorOf(fate);
    }

    method Get(key: string, reachable: bool) returns (r: Result<Option<Row>>)
      ensures r == if !reachable then Err("unreachable") else if key in rows then Ok(Some(rows[key])) else Ok(None)
    {
      r := if !reachable then Err("unreachable") else if key in rows then Ok(Some(rows[key])) else Ok(None);
    }

    method Delete(key: string, fate: Fate)
      modifies this
      ensures rows == if Lands(fate) then old(rows) - {key} else old(rows)
    {
      if Lands(fate) { rows := rows - {key}; }
    }
  }

  /** The state a request sees; `durable` says whether a store is configured. */
  datatype Vault = Vault(
    pairing: map<string, PairingCode>,
    cache: map<string, BrowserToken>,
    rows: map<string, Row>,
    durable: bool)

  function Purge(cache: map<string, BrowserToken>, envId: string): map<string, BrowserToken> {
    map t | t in cache && cache[t].envId != envId :: cache[t]
  }

  function Generated(v: Vault, envId: string, code: string, now: int): Vault {
    v.(pairing := v.pairing[code := PairingCode(envId, now + PAIRING_LIFETIME)])
  }

  predicate LiveCode(v: Vault, envId: string, code: string, now: int) {
    code in v.pairing && v.pairing[code].envId == envId && now <= v.pairing[code].expiresAt
  }

  function Bootstrapped(
    v: Vault, envId: string, key: string, code: string, token: string, now: int, save: Fate)
    : (Vault, Result<BrowserToken>)
  {
    if !LiveCode(v, envId, code, now) then (v, Err("invalid pairing code"))
    else
      var minted := BrowserToken(token, envId, now + TOKEN_LIFETIME);
      var spent := v.(pairing := v.pairing - {code});
      var saved :=
        if v.durable && Lands(save) then spent.(rows := v.rows[key := Row(token, minted.expiresAt)]) else spent;
      if v.durable && ErrorOf(save).Some? then (saved, Err(ErrorOf(save).value))
      else (saved.(cache := Purge(v.cache, envId)[token := minted]), Ok(minted))
  }

  predicate CacheGrants(v: Vault, envId: string, token: string, now: int) {
    token in v.cache && v.cache[token].envId == envId && now < v.cache[token].expiresAt
  }

  predicate RowGrants(v: Vault, key: string, token: string, now: int) {
    key in v.rows && v.rows[key].token == token && now <= v.rows[key].expiresAt
  }

  function Authorized(
    v: Vault, envId: string, key: string, token: Option<string>, now: int, reachable: bool, delete: Fate): (Vault, bool)
  {
    if token.None? then (v, false)
    else if CacheGrants(v, envId, token.value, now) then (v, true)
    else if !v.durable || !reachable then (v, false)
    else if RowGrants(v, key, token.value, now) then
      (v.(cache := v.cache[token.value := BrowserToken(token.value, envId, v.rows[key].expiresAt)]), true)
    else if key in v.rows && now > v.rows[key].expiresAt && Lands(delete) then
      (v.(rows := v.rows - {key}), false)
    else (v, false)
  }

  class Gateway {
    const tokenStore: TokenStore?
    var pairing: map<string, PairingCode>
    var browserAuth: map<string, BrowserToken>

    constructor (tokenStore: TokenStore?)
      ensures this.tokenStore == tokenStore && pairing == map[] && browserAuth == map[]
    {
      this.tokenStore := tokenStore;
      pairing, browserAuth := map[], map[];
    }

    ghost function State(): Vault
      reads this, tokenStore
    {
      Vault(pairing, browserAuth, if tokenStore == null then map[] else tokenStore.rows, tokenStore != null)
    }

    method GeneratePairingCode(envId: string, code: string, now: int) returns (expires: int)
      modifies this
      ensures State() == Generated(old(State()), envId, code, now) && expires == pairing[code].expiresAt
    {
      expires := now + PAIRING_LIFETIME;
      pairing := pairing[code := PairingCode(envId, expires)];
    }

    method DeleteBrowserTokens(envId: string)
      modifies this`browserAuth
      ensures browserAuth == Purge(old(browserAuth), envId)
    {
      ghost var before := browserAuth;
      var todo := browserAuth.Keys;
      while todo != {}
        invariant todo <= browserAuth.Keys <= before.Keys
        invariant forall t | t in browserAuth :: browserAuth[t] == before[t]
        invariant forall t | t in before && t !in todo :: t in browserAuth <==> before[t].envId != envId
        decreases todo
      {
        var token :| token in todo;
        todo := todo - {token};
        if browserAuth[token].envId == envId {
          browserAuth := browserAuth - {token};
        }
      }
    }

    method HandleBootstrap(envId: string, containerId: string, code: string, token: string, now: int, save: Fate)
        returns (r: Result<BrowserToken>)
      modifies this, tokenStore
      ensures (State(), r)
              == Bootstrapped(old(State()), envId, FirstNonEmpty(containerId, envId), code, token, now, save)
    {
      if code !in pairing || pairing[code].envId != envId || now > pairing[code].expiresAt {
        return Err("invalid pairing code");
      }
      pairing := pairing - {code};
      var expires := now + TOKEN_LIFETIME;
      if tokenStore != null {
        var err := tokenStore.Save(FirstNonEmpty(containerId, envId), token, expires, save);
        if err.Some? {
          return Err(err.value);
        }
      }
      DeleteBrowserTokens(envId);
      browserAuth := browserAuth[token := BrowserToken(token, envId, expires)];
      r := Ok(browserAuth[token]);
    }

    method AuthorizedWithStore(
        envId: string, storeId: string, token: Option<string>, now: int, reachable: bool, delete: Fate)
        returns (granted: bool)
      modifies this, tokenStore
      ensures (State(), granted) == Authorized(old(State()), envId, storeId, token, now, reachable, delete)
    {
      if token.None? { return false; }
      var presented := token.value;
      if presented in browserAuth && browserAuth[presented].envId == envId && now < browserAuth[presented].expiresAt {
        return true;
      }
      if tokenStore == null { return false; }
      var got := tokenStore.Get(storeId, reachable);
      if got.Err? { return false; }
      if got.value.None? || got.value.value.token != presented || now > got.value.value.expiresAt {
        if got.value.Some? && now > got.value.value.expiresAt {
          tokenStore.Delete(storeId, delete);
        }
        return false;
      }
      browserAuth := browserAuth[presented := BrowserToken(presented, envId, got.value.value.expiresAt)];
      granted := true;
    }
  }
}
