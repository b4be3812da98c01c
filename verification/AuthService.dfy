/** The auth service's session stores and its token operations. */
module AuthServices {
  import opened Prelude
  import R = RefreshTokens
  import S = Sessions

  class RedisService {
    var keys: map<S.Jti, S.Session>
    var users: map<Uuid, S.Index>

    function Contents(): S.Redis reads this { S.Redis(keys, users) }

    constructor ()
      ensures Contents() == S.Redis(map[], map[])
    {
      keys, users := map[], map[];
    }

    /**
     The session is active from now until exactly its lifetime has passed, and listed for its user all that time;
     other sessions and other users' indexes stay; a complete index stays complete exactly when no other live
     session of the user has a later deadline.
     */
    method StoreSession(jti: S.Jti, user: Uuid, ttl: int, now: int)
      modifies this
      ensures Contents() == S.Store(old(Contents()), jti, user, ttl, now)
      ensures forall at :: S.Active(keys, jti, at) <==> at < now + S.Max(ttl, 1)
      ensures forall at :: jti in S.Members(Contents(), user, at) <==> S.Active(keys, jti, at)
      ensures forall other, at :: other != jti ==> (S.Active(keys, other, at) <==> S.Active(old(keys), other, at))
      ensures forall other, at ::
                other != user ==> S.Members(Contents(), other, at) == S.Members(old(Contents()), other, at)
      ensures old(S.Covered(Contents(), now)) ==>
                (S.Covered(Contents(), now) <==> old(S.NotEarlier(Contents(), jti, user, ttl, now)))
    {
      if S.Covered(Contents(), now) { S.StoreKeepsCoverExactly(Contents(), jti, user, ttl, now); }
      var deadline := now + S.Max(ttl, 1);
      keys := keys[jti := S.Session(user, deadline)];
      var members := S.Members(Contents(), user, now);
      users := users[user := S.Index(members + {jti}, deadline)];
    }

    method SessionActive(jti: S.Jti, now: int) returns (active: bool)
      ensures active <==> S.Active(keys, jti, now)
    {
      active := jti in keys && now < keys[jti].deadline;
    }

    /**
     The session is never active again and no longer listed for its user; other sessions, and what is listed of
     them, stay; a complete index stays complete.
     */
    method RevokeSession(jti: S.Jti, user: Uuid, now: int)
      modifies this
      ensures Contents() == S.Revoke(old(Contents()), jti, user, now)
      ensures forall at :: !S.Active(keys, jti, at)
      ensures forall at :: now <= at ==> S.Members(Contents(), user, at) == S.Members(old(Contents()), user, at) - {jti}
      ensures forall other, at :: other != jti ==> (S.Active(keys, other, at) <==> S.Active(old(keys), other, at))
      ensures forall other, at ::
                other != user ==> S.Members(Contents(), other, at) == S.Members(old(Contents()), other, at)
      ensures old(S.Covered(Contents(), now)) ==> S.Covered(Contents(), now)
    {
      if S.Covered(Contents(), now) { S.RevokesKeepCover(Contents(), jti, user, now); }
      keys := keys - {jti};
      var left := S.Members(Contents(), user, now) - {jti};
      users := if left == {} then users - {user} else users[user := users[user].(members := left)];
    }

    method RevokeUserSessions(user: Uuid, now: int)
      modifies this
      ensures Contents() == S.RevokeUser(old(Contents()), user, now)
      ensures old(S.Covered(Contents(), now)) ==> forall jti :: S.Active(keys, jti, now) ==> keys[jti].user != user
      ensures forall jti, at ::
                S.Active(keys, jti, at) <==>
                S.Active(old(keys), jti, at) && jti !in S.Members(old(Contents()), user, now)
      ensures forall other, at ::
                S.Members(Contents(), other, at) ==
                if other == user then {} else S.Members(old(Contents()), other, at)
    {
      var members := S.Members(Contents(), user, now);
      S.RevokeUserExactly(Contents(), user, now);
      if members != {} {
        keys := keys - members;
      }
      users := users - {user};
    }
  }

  class InMemoryRedisService {
    var sessions: S.Memory

    constructor ()
      ensures sessions == map[]
    {
      sessions := map[];
    }

    method StoreSession(jti: S.Jti, user: Uuid, ttl: int, now: int)
      modifies this
      ensures sessions == S.MemoryStore(old(sessions), jti, user, ttl, now)
    {
      sessions := sessions[jti := S.Session(user, now + ttl)];
    }

    method SessionActive(jti: S.Jti, now: int) returns (active: bool)
      ensures active <==> S.Active(sessions, jti, now)
    {
      active := jti in sessions && sessions[jti].deadline > now;
    }

    method RevokeSession(jti: S.Jti, user: Uuid)
      modifies this
      ensures sessions == old(sessions) - {jti}
    {
      sessions := sessions - {jti};
    }

    method RevokeUserSessions(user: Uuid)
      modifies this
      ensures sessions == S.MemoryRevokeUser(old(sessions), user)
      ensures forall jti ::
                jti in sessions <==> jti in old(sessions) && old(sessions)[jti].user != user
      ensures forall jti :: jti in sessions ==> sessions[jti] == old(sessions)[jti]
    {
      sessions := map jti | jti in sessions && sessions[jti].user != user :: sessions[jti];
    }
  }

  datatype Denied = InvalidCredentials | InvalidRefreshToken | InvalidToken | SessionRevoked | AccountAccessDenied

  datatype Pair = Pair(access: S.Jti, refresh: nat)

  class AuthService {
    var rows: seq<R.Row>
    var sessionsIssued: S.Jti
    const redis: RedisService

    constructor (redis: RedisService)
      ensures rows == [] && sessionsIssued == 0 && this.redis == redis
    {
      rows, sessionsIssued := [], 0;
      this.redis := redis;
    }

    /**
     The refresh token is new, belongs to the user and can be used until exactly its deadline; the access token's
     session is the user's and active for exactly its lifetime; the other sessions are those before.
     */
    ghost predicate NewPair(before: seq<R.Row>, keys: map<S.Jti, S.Session>, pair: Pair, user: Uuid, expiresAt: int,
        lifetime: int, now: int)
      reads this, redis
    {
      && |rows| == |before| + 1 && pair.refresh == |before| && rows[pair.refresh].user == user
      && (forall at :: R.Usable(rows, pair.refresh, at) <==> at < expiresAt)
      && (forall at :: S.Active(redis.keys, pair.access, at) <==> at < now + S.Max(lifetime, 1))
      && pair.access in redis.keys && redis.keys[pair.access].user == user
      && (forall other, at :: other != pair.access ==> (S.Active(redis.keys, other, at) <==> S.Active(keys, other, at)))
    }

    method StoreAccess(user: Uuid, lifetime: int, now: int) returns (access: S.Jti)
      modifies this`sessionsIssued, redis
      ensures access == old(sessionsIssued) && sessionsIssued == access + 1
      ensures redis.Contents() == S.Store(old(redis.Contents()), access, user, lifetime, now)
    {
      access := sessionsIssued;
      sessionsIssued := sessionsIssued + 1;
      redis.StoreSession(access, user, S.Max(lifetime, 1), now);
    }

    method Login(user: Uuid, verified: bool, expiresAt: int, lifetime: int, now: int)
        returns (reply: Result<Pair, Denied>)
      modifies this, redis
      ensures !verified ==>
                reply == Err(InvalidCredentials) && rows == old(rows) && redis.Contents() == old(redis.Contents())
      ensures verified ==>
                && reply == Ok(Pair(old(sessionsIssued), |old(rows)|))
                && rows == R.Next(old(rows), R.Issue(user, expiresAt))
                && redis.Contents() == S.Store(old(redis.Contents()), old(sessionsIssued), user, lifetime, now)
      ensures reply.Ok? ==> NewPair(old(rows), old(redis.keys), reply.value, user, expiresAt, lifetime, now)
      ensures forall k :: 0 <= k < |old(rows)| ==> rows[k] == old(rows[k])
    {
      if !verified { return Err(InvalidCredentials); }
      rows := rows + [R.Row(user, expiresAt, None, None)];
      var access := StoreAccess(user, lifetime, now);
      reply := Ok(Pair(access, |rows| - 1));
    }

    method Refresh(jti: nat, userActive: bool, expiresAt: int, lifetime: int, now: int)
        returns (reply: Result<Pair, Denied>)
      modifies this, redis
      ensures rows == R.Next(old(rows), R.Exchange(jti, now, userActive, expiresAt))
      ensures reply.Ok? <==> R.Exchanges(old(rows), R.Exchange(jti, now, userActive, expiresAt))
      ensures reply.Ok? ==>
                && reply == Ok(Pair(old(sessionsIssued), |old(rows)|))
                && redis.Contents() ==
                   S.Store(old(redis.Contents()), old(sessionsIssued), old(rows)[jti].user, lifetime, now)
      ensures reply.Err? ==> reply == Err(InvalidRefreshToken) && redis.Contents() == old(redis.Contents())
      ensures reply.Ok? <==>
              userActive && jti < |old(rows)| && old(rows)[jti].revokedAt.None? && now < old(rows)[jti].expiresAt
      ensures reply.Err? ==> rows == old(rows)
      ensures reply.Ok? ==>
                && NewPair(old(rows), old(redis.keys), reply.value, old(rows)[jti].user, expiresAt, lifetime, now)
                && (forall at :: !R.Usable(rows, jti, at)) && rows[jti].replacedBy == Some(reply.value.refresh)
                && forall k :: 0 <= k < |old(rows)| && k != jti ==> rows[k] == old(rows[k])
    {
      if jti >= |rows| || rows[jti].revokedAt.Some? || rows[jti].expiresAt <= now { return Err(InvalidRefreshToken); }
      if !userActive { return Err(InvalidRefreshToken); }
      var user := rows[jti].user;
      var refresh := |rows|;
      rows := rows[jti := rows[jti].(revokedAt := Some(now), replacedBy := Some(refresh))];
      rows := rows + [R.Row(user, expiresAt, None, None)];
      var access := StoreAccess(user, lifetime, now);
      reply := Ok(Pair(access, refresh));
    }

    method SwitchAccount(accessJti: S.Jti, user: Uuid, member: bool, userActive: bool, expiresAt: int, lifetime: int,
        now: int)
      returns (reply: Result<Pair, Denied>)
      modifies this, redis
      ensures reply.Ok? <==> S.Active(old(redis.keys), accessJti, now) && member && userActive
      ensures reply.Err? ==> rows == old(rows) && redis.Contents() == old(redis.Contents())
      ensures reply.Ok? ==>
                && reply == Ok(Pair(old(sessionsIssued), |old(rows)|))
                && rows == R.Next(old(rows), R.Issue(user, expiresAt))
                && redis.Contents() ==
                   S.Store(S.Revoke(old(redis.Contents()), accessJti, user, now),
                           old(sessionsIssued), user, lifetime, now)
      ensures reply.Ok? ==>
                && NewPair(old(rows), old(redis.keys) - {accessJti}, reply.value, user, expiresAt, lifetime, now)
                && (accessJti != reply.value.access ==> forall at :: !S.Active(redis.keys, accessJti, at))
      ensures forall k :: 0 <= k < |old(rows)| ==> rows[k] == old(rows[k])
    {
      var active := redis.SessionActive(accessJti, now);
      if !active { return Err(SessionRevoked); }
      if !member { return Err(AccountAccessDenied); }
      if !userActive { return Err(InvalidToken); }
      rows := rows + [R.Row(user, expiresAt, None, None)];
      redis.RevokeSession(accessJti, user, now);
      var access := StoreAccess(user, lifetime, now);
      reply := Ok(Pair(access, |rows| - 1));
    }

    method Logout(accessJti: S.Jti, accessUser: Uuid, refreshUser: Uuid, refreshJti: nat, now: int)
        returns (reply: Result<(), Denied>)
      requires refreshJti < |rows| ==> rows[refreshJti].user == refreshUser
      modifies this, redis
      ensures reply.Ok? <==> accessUser == refreshUser
      ensures reply.Err? ==> reply == Err(InvalidToken) && redis.Contents() == old(redis.Contents())
      ensures rows == R.Next(old(rows), R.Logout(accessUser, refreshJti, now))
      ensures reply.Ok? ==> redis.Contents() == S.Revoke(old(redis.Contents()), accessJti, accessUser, now)
      ensures reply.Ok? ==> forall at :: !R.Usable(rows, refreshJti, at) && !S.Active(redis.keys, accessJti, at)
      ensures |rows| == |old(rows)|
      ensures forall k :: 0 <= k < |rows| && (reply.Err? || k != refreshJti) ==> rows[k] == old(rows[k])
      ensures forall other, at ::
                other != accessJti ==> (S.Active(redis.keys, other, at) <==> S.Active(old(redis.keys), other, at))
    {
      if accessUser != refreshUser { return Err(InvalidToken); }
      if refreshJti < |rows| && rows[refreshJti].revokedAt.None? {
        rows := rows[refreshJti := rows[refreshJti].(revokedAt := Some(now))];
      }
      redis.RevokeSession(accessJti, accessUser, now);
      reply := Ok(());
    }

    /**
     After the code is accepted: no refresh row of the user is usable and, with a complete index, no session is
     active.
     */
    method ResetPassword(user: Uuid, now: int)
      modifies this, redis
      ensures rows == R.Next(old(rows), R.ResetPassword(user, now))
      ensures redis.Contents() == S.RevokeUser(old(redis.Contents()), user, now)
      ensures forall jti: nat, at :: R.Usable(rows, jti, at) ==> rows[jti].user != user
      ensures old(S.Covered(redis.Contents(), now)) ==>
                forall jti :: S.Active(redis.keys, jti, now) ==> redis.keys[jti].user != user
      ensures |rows| == |old(rows)|
      ensures forall k :: 0 <= k < |rows| && old(rows[k]).user != user ==> rows[k] == old(rows[k])
      ensures forall jti, at ::
                S.Active(redis.keys, jti, at) <==>
                S.Active(old(redis.keys), jti, at) && jti !in S.Members(old(redis.Contents()), user, now)
    {
      rows := R.RevokeAll(rows, user, now);
      redis.RevokeUserSessions(user, now);
    }
  }
}
