/**
 * Session tokens and their expiry. A token is an identifier plus the time
 * it was issued; `NullToken` stands for "no token in the session".
 */
module Tokens {

  /** A clock reading, in seconds. */
  type Time = int

  /** A uuid, represented by its canonical text form, which `str()` returns. */
  datatype Uuid = Uuid(text: string)

  function Str(u: Uuid): string
  {
    u.text
  }

  datatype Token = Token(value: Uuid, date: Time) | NullToken

  /** A token that was actually minted; only these are stored. */
  type IssuedToken = t: Token | t.Token? witness Token(Uuid(""), 0)

  /**
   * `_token_is_expired`: a `NullToken` always is; any other token is expired
   * when it was issued strictly before `now - expireSeconds`.
   */
  predicate IsExpired(t: Token, now: Time, expireSeconds: int)
  {
    match t
    case NullToken => true
    case Token(_, date) => date < now - expireSeconds
  }

  lemma ExpiryBoundary(t: Token, now: Time, expireSeconds: int)
    ensures t.NullToken? ==> IsExpired(t, now, expireSeconds)
    ensures t.Token? && t.date == now - expireSeconds ==> !IsExpired(t, now, expireSeconds)
    ensures t.Token? && t.date == now - expireSeconds - 1 ==> IsExpired(t, now, expireSeconds)
  {
  }

  /** Once expired, a token stays expired at every later time. */
  lemma ExpiryIsMonotone(t: Token, now: Time, later: Time, expireSeconds: int)
    requires now <= later
    requires IsExpired(t, now, expireSeconds)
    ensures IsExpired(t, later, expireSeconds)
  {
  }

  /** The entries of a token table that are still live at `now`. */
  function LiveTokens(m: map<string, IssuedToken>, now: Time, expireSeconds: int): (r: map<string, IssuedToken>)
    ensures forall k :: k in r <==> k in m && !IsExpired(m[k], now, expireSeconds)
    ensures forall k :: k in r ==> r[k] == m[k]
  {
    map k | k in m && !IsExpired(m[k], now, expireSeconds) :: m[k]
  }

  /** Sweeping at a later time subsumes an earlier sweep. */
  lemma LaterSweepSubsumes(m: map<string, IssuedToken>, now: Time, later: Time, expireSeconds: int)
    requires now <= later
    ensures LiveTokens(LiveTokens(m, now, expireSeconds), later, expireSeconds) == LiveTokens(m, later, expireSeconds)
  {
    var a := LiveTokens(LiveTokens(m, now, expireSeconds), later, expireSeconds);
    var b := LiveTokens(m, later, expireSeconds);
    forall k | k in m && !IsExpired(m[k], later, expireSeconds)
      ensures !IsExpired(m[k], now, expireSeconds)
    {
      if IsExpired(m[k], now, expireSeconds) {
        ExpiryIsMonotone(m[k], now, later, expireSeconds);
      }
    }
    assert a.Keys == b.Keys;
  }
}
