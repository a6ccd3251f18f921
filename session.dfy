/**
  The module-level token cache: a bearer token memoised until shortly
  before the expiry the sign-in endpoint announces.
*/
module Session {
  import opened Wrappers
  import opened Http

  /** Seconds cut from the announced lifetime. */
  const SafetyMargin := 60
  /** Lifetime assumed when the sign-in body has no `expiresIn`. */
  const DefaultExpiresIn := 900

  /** The cache's two entries; the clock is in whole seconds. */
  datatype Cache = Cache(token: Option<string>, exp: Option<int>)

  const Empty := Cache(None, None)

  /**
    The sign-in endpoint's answer. `accessToken` and `expiresIn` are read
    only when the status is 200; a missing `expiresIn` is `None`.
  */
  datatype LoginReply = LoginReply(status: int, accessToken: string, expiresIn: Option<int>)

  /** The result of a step, the cache after it, and the calls it made. */
  datatype Step<T> = Step(result: Result<T, Failure>, cache: Cache, calls: seq<Call>)

  /** The cached token may be served: it is set, non-empty (truthy) and not yet expired. */
  predicate Fresh(c: Cache, now: int) {
    c.token.Some? && c.token.value != "" && c.exp.Some? && now < c.exp.value
  }

  function Lifetime(reply: LoginReply): int {
    reply.expiresIn.GetOr(DefaultExpiresIn)
  }

  /**
    `_refresh_token`: one sign-in; a non-200 answer raises a 500 before
    either entry is written, a 200 overwrites both.
  */
  function Login(c: Cache, now: int, reply: LoginReply): (s: Step<string>)
    ensures s.calls == [SignIn]
    ensures reply.status != 200 ==> s.result == Err(Raised(500, LoginFailed)) && s.cache == c
    ensures reply.status == 200 ==>
      && s.result == Ok(reply.accessToken)
      && s.cache.token == Some(reply.accessToken)
      && s.cache.exp == Some(now + Lifetime(reply) - SafetyMargin)
  {
    if reply.status != 200 then Step(Err(Raised(500, LoginFailed)), c, [SignIn])
    else
      var token := reply.accessToken;
      Step(Ok(token), Cache(Some(token), Some(now + Lifetime(reply) - SafetyMargin)), [SignIn])
  }

  /**
    `get_token`: the cached token while it is fresh, with no call at all;
    otherwise exactly one sign-in.
  */
  function GetTokenStep(c: Cache, now: int, reply: LoginReply): (s: Step<string>)
    ensures s.calls == [] <==> Fresh(c, now)
    ensures Fresh(c, now) ==> s.result == Ok(c.token.value) && s.cache == c
    ensures !Fresh(c, now) ==> s == Login(c, now, reply)
  {
    if Fresh(c, now) then Step(Ok(c.token.value), c, []) else Login(c, now, reply)
  }

  /** Without `expiresIn` the token is kept for 840 seconds. */
  lemma DefaultLifetime(c: Cache, now: int, token: string)
    ensures Login(c, now, LoginReply(200, token, None)).cache.exp == Some(now + 840)
  {
  }

  /**
    After a successful sign-in at `t`, a later `get_token` at `t'` reuses the
    token exactly while `t' < t + expiresIn - 60` (and the token is non-empty),
    and signs in once again from then on.
  */
  lemma ReuseWindow(c: Cache, t: int, reply: LoginReply, t': int, next: LoginReply)
    requires reply.status == 200
    ensures var s := GetTokenStep(Login(c, t, reply).cache, t', next);
      && (s.calls == [] <==> reply.accessToken != "" && t' < t + Lifetime(reply) - SafetyMargin)
      && (s.calls == [] ==> s.result == Ok(reply.accessToken))
      && (s.calls != [] ==> s.calls == [SignIn])
  {
  }

  /** A freshly issued token is served from the cache at the time of issue iff its lifetime exceeds the margin. */
  lemma FreshAtIssue(c: Cache, now: int, reply: LoginReply)
    requires reply.status == 200 && reply.accessToken != ""
    ensures Fresh(Login(c, now, reply).cache, now) <==> Lifetime(reply) > SafetyMargin
  {
  }

  /** The token cache object: `_token_cache` with its two entries. */
  class TokenCache {
    var token: Option<string>
    var exp: Option<int>

    /**
      Both entries are written by one sign-in, so they are set or unset
      together. A sign-in answer with a null `expiresIn` would break this in
      the source; the model does not produce that answer.
    */
    ghost predicate Valid()
      reads this
    {
      token.Some? == exp.Some?
    }

    function State(): Cache
      reads this
    {
      Cache(token, exp)
    }

    constructor ()
      ensures Valid() && State() == Empty
    {
      token, exp := None, None;
    }

    /** `_refresh_token`. */
    method Refresh(now: int, reply: LoginReply) returns (r: Result<string, Failure>)
      requires Valid()
      modifies this
      ensures Valid()
      ensures Step(r, State(), [SignIn]) == Login(old(State()), now, reply)
    {
      if reply.status != 200 {
        return Err(Raised(500, LoginFailed));
      }
      token := Some(reply.accessToken);
      exp := Some(now + Lifetime(reply) - SafetyMargin);
      r := Ok(token.value);
    }

    /** `get_token`; `calls` lists the sign-ins it made. */
    method GetToken(now: int, reply: LoginReply) returns (r: Result<string, Failure>, calls: seq<Call>)
      requires Valid()
      modifies this
      ensures Valid()
      ensures Step(r, State(), calls) == GetTokenStep(old(State()), now, reply)
    {
      if token.Some? && token.value != "" && now < exp.value {
        return Ok(token.value), [];
      }
      r := Refresh(now, reply);
      calls := [SignIn];
    }
  }
}
