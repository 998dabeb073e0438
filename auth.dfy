/** Session issue and revoke over the key-value session store.

    A session is the key `auth_<token>` holding the user's written-out id,
    set with a time-to-live; `getDisconnect` deletes the key. Expiry itself
    is enforced by the store and is not modelled. */
module Auth {
  import opened Wrappers
  import opened ObjectIds

  /** `24 * 60 * 60`: a session lives one day, in seconds. */
  const SessionTtl: nat := 24 * 60 * 60

  /** A stored value with the time-to-live it was set with. */
  datatype Entry = Entry(value: string, ttl: nat)

  type Sessions = map<string, Entry>

  /** `auth_${token}`. */
  function SessionKey(token: string): (k: string)
    ensures |k| == |token| + 5 && k[..5] == "auth_" && k[5..] == token
  {
    "auth_" + token
  }

  /** Different tokens never share a key. */
  lemma SessionKeyInjective(a: string, b: string)
    ensures SessionKey(a) == SessionKey(b) <==> a == b
  {
    if SessionKey(a) == SessionKey(b) {
      assert a == SessionKey(a)[5..];
    }
  }

  /** The key `getDisconnect` deletes for the `X-Token` header; without the
      header the template literal reads `auth_undefined`. */
  function DisconnectKey(header: Option<string>): (k: string)
    ensures header.Some? ==> k == SessionKey(header.value)
    ensures header.None? ==> k == "auth_undefined"
  {
    match header
    case Some(t) => SessionKey(t)
    case None => SessionKey("undefined")
  }

  /** The store after `getConnect` for `user` with `token`. */
  function Issue(sessions: Sessions, user: ObjectId, token: string): (r: Sessions)
    ensures SessionKey(token) in r && r[SessionKey(token)] == Entry(Render(user), SessionTtl)
    ensures ObjectIdOf(r[SessionKey(token)].value) == user
    ensures forall k | k != SessionKey(token) :: (k in r <==> k in sessions) && (k in r ==> r[k] == sessions[k])
  {
    RenderRoundTrip(user);
    sessions[SessionKey(token) := Entry(Render(user), SessionTtl)]
  }

  /** The store after `getDisconnect` with the given header. */
  function Revoke(sessions: Sessions, header: Option<string>): (r: Sessions)
    ensures DisconnectKey(header) !in r
    ensures forall k | k != DisconnectKey(header) :: (k in r <==> k in sessions) && (k in r ==> r[k] == sessions[k])
  {
    sessions - {DisconnectKey(header)}
  }

  /** Revoking twice leaves the store as revoking once; revoking an absent
      session changes nothing. */
  lemma RevokeIdempotent(sessions: Sessions, header: Option<string>)
    ensures Revoke(Revoke(sessions, header), header) == Revoke(sessions, header)
    ensures DisconnectKey(header) !in sessions ==> Revoke(sessions, header) == sessions
  {
  }

  /** Disconnecting with the token just issued removes that session and
      leaves every other session as it was before the connect. */
  lemma IssueThenRevoke(sessions: Sessions, user: ObjectId, token: string)
    ensures Revoke(Issue(sessions, user, token), Some(token)) == sessions - {SessionKey(token)}
  {
  }

  /** What `getConnect` answers (status 200). */
  datatype Connected = Connected(token: string)

  /** The session store. */
  class SessionStore {
    var sessions: Sessions

    constructor ()
      ensures sessions == map[]
    {
      sessions := map[];
    }

    /** `redisClient.get(key)`: the stored value, or nothing. */
    function Get(key: string): Option<string>
      reads this
    {
      if key in sessions then Some(sessions[key].value) else None
    }

    /** `getConnect` for the authenticated `user`; `token` is the fresh
        uuid. Only the key of that token is written. */
    method GetConnect(user: ObjectId, token: string) returns (r: Connected)
      modifies this
      ensures sessions == Issue(old(sessions), user, token)
      ensures r.token == token
      ensures Get(SessionKey(r.token)) == Some(Render(user))
    {
      sessions := Issue(sessions, user, token);
      r := Connected(token);
    }

    /** `getDisconnect` with the `X-Token` header (status 204, whether or
        not the session existed). Only that key is deleted. */
    method GetDisconnect(header: Option<string>)
      modifies this
      ensures sessions == Revoke(old(sessions), header)
      ensures header.Some? ==> Get(SessionKey(header.value)) == None
    {
      sessions := Revoke(sessions, header);
    }
  }
}
