/**
 The services themselves: the Redis-backed blocklist and the token operations of AuthService,
 step by step, each proved to be the corresponding operation on states of TokenRotation.
 Redis is reachable and an operation runs to its end before the next one starts.
 */
module AuthSessions {
  import opened Collections
  import opened Options
  import opened TokenRotation

  class TokenBlocklistService {
    var entries: map<Key, int>

    constructor ()
      ensures entries == map[]
    {
      entries := map[];
    }

    method BlocklistToken(token: Token, ttlSeconds: int, now: int)
      modifies this
      ensures entries == SetEx(old(entries), BlockedToken(token), ttlSeconds, now)
    {
      if ttlSeconds <= 0 { return; }
      entries := entries[BlockedToken(token) := now + 1000 * ttlSeconds];
    }

    method MarkRefreshTokenRotated(jti: nat, ttlSeconds: int, now: int)
      modifies this
      ensures entries == SetEx(old(entries), RotatedJti(jti), ttlSeconds, now)
    {
      if ttlSeconds <= 0 { return; }
      entries := entries[RotatedJti(jti) := now + 1000 * ttlSeconds];
    }

    method RevokeTokenFamily(familyId: nat, ttlSeconds: int, now: int)
      modifies this
      ensures entries == SetEx(old(entries), RevokedFamily(familyId), ttlSeconds, now)
    {
      if ttlSeconds <= 0 { return; }
      entries := entries[RevokedFamily(familyId) := now + 1000 * ttlSeconds];
    }

    predicate Holds(key: Key, now: int)
      reads this
    {
      key in entries && now < entries[key]
    }
  }

  class AuthService {
    const cfg: Config
    const blocklist: TokenBlocklistService
    var now: int
    var users: map<UserId, nat>
    /** What the signing key has signed: verification succeeds for these and nothing else. */
    var signed: set<Token>
    var nextId: nat
    ghost var exchanged: seq<Token>

    constructor (cfg: Config)
      ensures fresh(blocklist) && this.cfg == cfg && View() == Init()
    {
      this.cfg := cfg;
      blocklist := new TokenBlocklistService();
      now, users, signed, nextId, exchanged := 0, map[], {}, 0, [];
    }

    ghost function View(): State
      reads this, blocklist
    {
      State(now, users, blocklist.entries, signed, nextId, exchanged)
    }

    method SignAccess(user: UserId) returns (access: Token)
      requires user in users
      modifies this`signed
      ensures access == AccessFor(cfg, old(View()), user)
      ensures signed == old(signed) + {access}
    {
      access := Token(user, users[user], Access, None, None, Seconds(now) + cfg.accessTtl);
      signed := signed + {access};
    }

    method IssuePair(user: UserId, familyId: Option<nat>) returns (access: Token, refresh: Token)
      requires user in users
      modifies this`signed, this`nextId
      ensures (View(), access, refresh) == IssueTokenPair(cfg, old(View()), user, familyId)
    {
      var family := if familyId.Some? then familyId.value else nextId;
      access := SignAccess(user);
      refresh := Token(user, users[user], Refresh, Some(nextId + 1), Some(family), Seconds(now) + cfg.refreshTtl);
      signed := signed + {refresh};
      nextId := nextId + 2;
      assert signed == old(signed) + {access, refresh};
    }

    /** The tail of a successful password or Google login; an unknown user gets nothing. */
    method Login(user: UserId) returns (pair: Option<(Token, Token)>)
      modifies this
      ensures View() == Apply(cfg, old(View()), Op.Login(user))
      ensures pair == HandedOut(cfg, old(View()), Op.Login(user)) && (pair.Some? <==> user in old(users))
    {
      if user !in users { return None; }
      var access, refresh := IssuePair(user, None);
      pair := Some((access, refresh));
    }

    method Sep10Login(user: UserId) returns (pair: Option<(Token, Token)>)
      modifies this
      ensures View() == Apply(cfg, old(View()), Op.Sep10Login(user))
      ensures pair == HandedOut(cfg, old(View()), Op.Sep10Login(user)) && (pair.Some? <==> user in old(users))
    {
      if user !in users { return None; }
      var access := SignAccess(user);
      var refresh := Token(user, users[user], Refresh, None, None, Seconds(now) + cfg.sep10RefreshTtl);
      signed := signed + {refresh};
      assert signed == old(signed) + {access, refresh};
      pair := Some((access, refresh));
    }

    method RefreshTokens(token: Token) returns (result: RefreshResult)
      modifies this, blocklist
      ensures (View(), result) == RefreshStep(cfg, old(View()), token)
    {
      if token !in signed || token.exp <= Seconds(now) { return Rejected; }
      if token.typ != Refresh { return Rejected; }
      if token.sub !in users { return Rejected; }
      if token.version != users[token.sub] { return Rejected; }
      if token.familyId.Some? {
        var revoked := blocklist.Holds(RevokedFamily(token.familyId.value), now);
        if revoked { return Rejected; }
      }
      if token.jti.Some? {
        var alreadyRotated := blocklist.Holds(RotatedJti(token.jti.value), now);
        if alreadyRotated {
          if token.familyId.Some? {
            blocklist.RevokeTokenFamily(token.familyId.value, cfg.familyTtl, now);
          }
          users := users[token.sub := users[token.sub] + 1];
          return ReuseDetected;
        }
        var remainingSeconds := token.exp - Seconds(now);
        blocklist.MarkRefreshTokenRotated(token.jti.value, Max(remainingSeconds, 1), now);
      }
      exchanged := exchanged + [token];
      var access, refresh := IssuePair(token.sub, token.familyId);
      result := Rotated(access, refresh);
    }

    /** The presented token, if any, is blocked even when the user turns out not to exist. */
    method Logout(user: UserId, presented: Option<Token>) returns (found: bool)
      modifies this, blocklist
      ensures View() == LogoutStep(old(View()), user, presented)
      ensures found <==> user in old(users)
    {
      if presented.Some? {
        var remainingSeconds := presented.value.exp - Seconds(now);
        if remainingSeconds > 0 {
          blocklist.BlocklistToken(presented.value, remainingSeconds, now);
        }
      }
      found := InvalidateSessions(user);
    }

    /** The version bump shared by changePassword, revokeSession and updateUserRole. */
    method InvalidateSessions(user: UserId) returns (found: bool)
      modifies this`users
      ensures View() == BumpVersion(old(View()), user)
      ensures found <==> user in old(users)
    {
      if user !in users { return false; }
      users := users[user := users[user] + 1];
      found := true;
    }

    method Validate(token: Token) returns (ok: bool)
      ensures ok == AccessAccepted(View(), token)
    {
      if token !in signed || token.exp <= Seconds(now) { return false; }
      var revoked := blocklist.Holds(BlockedToken(token), now);
      if revoked { return false; }
      if token.typ == Refresh { return false; }
      if token.sub !in users { return false; }
      ok := token.version == users[token.sub];
    }
  }
}
