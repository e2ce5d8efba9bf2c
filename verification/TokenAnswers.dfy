/** What the token gateway answers to one request and to the ones that follow it, with and without a store. Times are
    in seconds: a pairing code lives for five minutes, a token for a day. */
module TokenAnswers {
  import opened Model
  import opened BrowserTokens
  import opened TokenTheorems

  /** The code was issued for this environment, has not been used and has not expired. */
  predicate Redeemable(v: Vault, envId: string, code: string, now: int) {
    code in v.pairing && v.pairing[code].envId == envId && now <= v.pairing[code].expiresAt
  }

  /** A generated code can be redeemed by its environment for 300 seconds; other codes are not touched. */
  lemma CodeLifetime(v: Vault, envId: string, code: string, now: int, other: string, later: int)
    ensures var w := Generated(v, envId, code, now);
            && (Redeemable(w, other, code, later) <==> other == envId && later <= now + 300)
            && (forall c | c != code :: Redeemable(w, other, c, later) <==> Redeemable(v, other, c, later))
            && w.cache == v.cache && w.rows == v.rows && w.durable == v.durable
  {}

  /** The answer to a bootstrap: a token exactly when the code can be redeemed and no failing save stands in the way.
      The
      code is spent whenever it can be redeemed, and no other code is. */
  lemma BootstrapAnswer(v: Vault, envId: string, key: string, code: string, token: string, now: int, save: Fate)
    ensures var (w, r) := Bootstrapped(v, envId, key, code, token, now, save);
            && (r.Ok? <==> Redeemable(v, envId, code, now) && (v.durable ==> save.Succeeds?))
            && (r.Ok? ==> r.value == BrowserToken(token, envId, now + 86400))
            && (r.Err? ==> r.error == if Redeemable(v, envId, code, now) then save.error else "invalid pairing code")
            && w.pairing == (if Redeemable(v, envId, code, now) then v.pairing - {code} else v.pairing)
            && w.durable == v.durable
  {}

  /** The token of a successful bootstrap is granted to its environment at once and for a day, whether or not the store
      can be read; with a readable store also at the very instant at which it expires, and never after. */
  lemma BootstrapGrants(
    v: Vault, envId: string, key: string, code: string, token: string, now: int, save: Fate,
    later: int, reachable: bool, delete: Fate)
    requires Bootstrapped(v, envId, key, code, token, now, save).1.Ok?
    ensures var w := Bootstrapped(v, envId, key, code, token, now, save).0;
            Authorized(w, envId, key, Some(token), later, reachable, delete).1 <==>
            later < now + 86400 || (later == now + 86400 && v.durable && reachable)
  {}

  /** A bootstrap that is not answered with a token leaves the cache as it was. It changes the answer to a request with
      another token if and only if its save wrote in spite of the failure, and the row it replaced was what the request
      depended on. */
  lemma FailedBootstrap(
    v: Vault, envId: string, key: string, code: string, token: string, now: int, save: Fate,
    other: string, otherKey: string, presented: string, later: int, reachable: bool, delete: Fate)
    requires Bootstrapped(v, envId, key, code, token, now, save).1.Err? && presented != token
    ensures var w := Bootstrapped(v, envId, key, code, token, now, save).0;
            && w.cache == v.cache
            && (Authorized(w, other, otherKey, Some(presented), later, reachable, delete).1
                == Authorized(v, other, otherKey, Some(presented), later, reachable, delete).1 <==>
                !(&& v.durable && save.FailsAfter? && Redeemable(v, envId, code, now)
                  && otherKey == key && reachable && RowGrants(v, key, presented, later)
                  && !CacheGrants(v, other, presented, later)))
  {}

  /** A bootstrap that succeeds takes the place of its environment's last token, and leaves the cached tokens of other
      environments alone. */
  lemma SuccessfulBootstrap(
    v: Vault, envId: string, key: string, code: string, token: string, now: int, save: Fate, presented: string)
    requires Bootstrapped(v, envId, key, code, token, now, save).1.Ok? && presented != token
    ensures var w := Bootstrapped(v, envId, key, code, token, now, save).0;
            && (presented in w.cache <==> presented in v.cache && v.cache[presented].envId != envId)
            && (presented in w.cache ==> w.cache[presented] == v.cache[presented])
            && (forall k | k != key :: (k in w.rows <==> k in v.rows) && (k in v.rows ==> w.rows[k] == v.rows[k]))
            && (v.durable ==> key in w.rows && w.rows[key] == Row(token, now + 86400))
            && (!v.durable ==> w.rows == v.rows)
  {}

  /** What an authorization leaves behind: a granted token is granted again until just before it expires, also while the
      store cannot be read; and a row is deleted exactly when it was read, has expired and the deletion lands. */
  lemma AuthorizeLeaves(
    v: Vault, envId: string, key: string, presented: string, now: int, reachable: bool, delete: Fate,
    later: int, readable: bool, again: Fate)
    ensures var (w, granted) := Authorized(v, envId, key, Some(presented), now, reachable, delete);
            && (granted && CacheGrants(v, envId, presented, now) ==> w == v)
            && (granted && !CacheGrants(v, envId, presented, now) ==>
                  && presented in w.cache && w.cache[presented] == BrowserToken(presented, envId, v.rows[key].expiresAt)
                  && (later < v.rows[key].expiresAt ==>
                        Authorized(w, envId, key, Some(presented), later, readable, again).1))
            && w.pairing == v.pairing && (forall t | t != presented || !granted :: t in w.cache <==> t in v.cache)
            && (forall t | t in v.cache && (t != presented || !granted) :: w.cache[t] == v.cache[t])
            && w.rows == if v.durable && reachable && !CacheGrants(v, envId, presented, now)
                            && key in v.rows && now > v.rows[key].expiresAt && Lands(delete)
                         then v.rows - {key} else v.rows
  {}
}
