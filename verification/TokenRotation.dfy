/**
 Refresh-token rotation (backend/src/auth/auth.service.ts) over the Redis-backed blocklist
 (backend/src/auth/token-blocklist.service.ts) and the access-token guard
 (backend/src/auth/jwt.strategy.ts).
 */
module TokenRotation {
  import opened Collections
  import opened Options

  type UserId = string

  datatype TokenType = Access | Refresh

  /**
   A signed token is its payload. jti and familyId are random UUIDs, drawn here from a counter;
   exp is in seconds since the epoch (section 4.1.4 of RFC 7519).
   */
  datatype Token = Token(
    sub: UserId, version: nat, typ: TokenType, jti: Option<nat>, familyId: Option<nat>, exp: int)

  datatype Key = BlockedToken(token: Token) | RotatedJti(jti: nat) | RevokedFamily(familyId: nat)

  /** Lifetimes in seconds. familyTtl is what durationToSeconds makes of the refresh lifetime. */
  datatype Config = Config(accessTtl: nat, refreshTtl: nat, sep10RefreshTtl: nat, familyTtl: nat)

  /**
   Times in milliseconds; redis maps a key to the instant it expires. exchanged is the history of successful
   refreshes.
   */
  datatype State = State(
    now: int, users: map<UserId, nat>, redis: map<Key, int>, issued: set<Token>, nextId: nat, exchanged: seq<Token>)

  datatype RefreshResult = Rejected | ReuseDetected | Rotated(accessToken: Token, refreshToken: Token)

  function Seconds(ms: int): int {
    ms / 1000
  }

  // ---- The TTL store ----

  /** SETEX, skipped for a lifetime that is not positive. */
  function SetEx(redis: map<Key, int>, key: Key, ttlSeconds: int, now: int): map<Key, int> {
    if ttlSeconds <= 0 then redis else redis[key := now + 1000 * ttlSeconds]
  }

  predicate Live(redis: map<Key, int>, key: Key, now: int) {
    key in redis && now < redis[key]
  }

  // ---- The operations on states ----

  function AccessFor(cfg: Config, st: State, user: UserId): Token
    requires user in st.users
  {
    Token(user, st.users[user], Access, None, None, Seconds(st.now) + cfg.accessTtl)
  }

  function IssueTokenPair(cfg: Config, st: State, user: UserId, familyId: Option<nat>): (State, Token, Token)
    requires user in st.users
  {
    var family := if familyId.Some? then familyId.value else st.nextId;
    var access := AccessFor(cfg, st, user);
    var refresh :=
        Token(user, st.users[user], Refresh, Some(st.nextId + 1), Some(family), Seconds(st.now) + cfg.refreshTtl);
    (st.(issued := st.issued + {access, refresh}, nextId := st.nextId + 2), access, refresh)
  }

  /** A wallet login signs a refresh token that has neither a jti nor a family. */
  function IssueSep10Pair(cfg: Config, st: State, user: UserId): (State, Token, Token)
    requires user in st.users
  {
    var access := AccessFor(cfg, st, user);
    var refresh := Token(user, st.users[user], Refresh, None, None, Seconds(st.now) + cfg.sep10RefreshTtl);
    (st.(issued := st.issued + {access, refresh}), access, refresh)
  }

  predicate Verified(st: State, t: Token) {
    t in st.issued && Seconds(st.now) < t.exp
  }

  predicate FamilyRevoked(st: State, t: Token) {
    t.familyId.Some? && Live(st.redis, RevokedFamily(t.familyId.value), st.now)
  }

  predicate AlreadyRotated(st: State, t: Token) {
    t.jti.Some? && Live(st.redis, RotatedJti(t.jti.value), st.now)
  }

  /** Everything `refresh` checks before it looks at the jti. */
  predicate Admissible(st: State, t: Token) {
    Verified(st, t) && t.typ == Refresh && t.sub in st.users && t.version == st.users[t.sub] && !FamilyRevoked(st, t)
  }

  function BumpVersion(st: State, user: UserId): State {
    if user in st.users then st.(users := st.users[user := st.users[user] + 1]) else st
  }

  /** The presented token is marked as rotated for the rest of its life, and for one second at least. */
  function Exchanged(st: State, t: Token): State {
    var redis := if t.jti.Some? then SetEx(st.redis, RotatedJti(t.jti.value), Max(t.exp - Seconds(st.now), 1), st.now)
        else st.redis;
    st.(redis := redis, exchanged := st.exchanged + [t])
  }

  function RefreshStep(cfg: Config, st: State, t: Token): (State, RefreshResult) {
    if !Admissible(st, t) then (st, Rejected)
    else if AlreadyRotated(st, t) then
      var redis := if t.familyId.Some? then SetEx(st.redis, RevokedFamily(t.familyId.value), cfg.familyTtl, st.now)
          else st.redis;
      (BumpVersion(st.(redis := redis), t.sub), ReuseDetected)
    else
      var (st', access, refresh) := IssueTokenPair(cfg, Exchanged(st, t), t.sub, t.familyId);
      (st', Rotated(access, refresh))
  }

  function LogoutStep(st: State, user: UserId, token: Option<Token>): State {
    var redis := if token.Some? then
        SetEx(st.redis, BlockedToken(token.value), token.value.exp - Seconds(st.now), st.now) else st.redis;
    BumpVersion(st.(redis := redis), user)
  }

  /** The guard in front of every authenticated route. */
  predicate AccessAccepted(st: State, t: Token) {
    && Verified(st, t) && !Live(st.redis, BlockedToken(t), st.now) && t.typ != Refresh
    && t.sub in st.users && t.version == st.users[t.sub]
  }

  predicate RefreshAccepted(cfg: Config, st: State, t: Token) {
    RefreshStep(cfg, st, t).1.Rotated?
  }

  // ---- Runs ----

  datatype Op =
    | Register(user: UserId)
    | Login(user: UserId)
    | Sep10Login(user: UserId)
    | DoRefresh(token: Token)
    | Logout(user: UserId, presented: Option<Token>)
    | Invalidate(user: UserId)
    | Tick(ms: nat)

  function Apply(cfg: Config, st: State, op: Op): State {
    match op
    case Register(user) => if user in st.users then st else st.(users := st.users[user := 0])
    case Login(user) => if user in st.users then IssueTokenPair(cfg, st, user, None).0 else st
    case Sep10Login(user) => if user in st.users then IssueSep10Pair(cfg, st, user).0 else st
    case DoRefresh(t) => RefreshStep(cfg, st, t).0
    case Logout(user, token) => LogoutStep(st, user, token)
    case Invalidate(user) => BumpVersion(st, user)
    case Tick(ms) => st.(now := st.now + ms)
  }

  function Run(cfg: Config, st: State, ops: seq<Op>): State
    decreases |ops|
  {
    if ops == [] then st else Run(cfg, Apply(cfg, st, ops[0]), ops[1..])
  }

  function Init(): State {
    State(0, map[], map[], {}, 0, [])
  }

  // ---- The invariant of every run ----

  ghost predicate WellIssued(cfg: Config, st: State, t: Token) {
    && t.sub in st.users && t.version <= st.users[t.sub]
    && (t.jti.Some? ==> t.jti.value < st.nextId && t.typ == Refresh && t.familyId.Some?)
    && (t.familyId.Some? ==> t.familyId.value < st.nextId && t.jti.Some? && t.exp <= Seconds(st.now) + cfg.refreshTtl)
  }

  /** The rotated mark of an exchanged token outlives the token. */
  ghost predicate MarkOutlives(st: State, t: Token) {
    t.jti.Some? ==> RotatedJti(t.jti.value) in st.redis && st.redis[RotatedJti(t.jti.value)] >= 1000 * t.exp
  }

  ghost predicate ExchangedOnce(st: State) {
    forall i, j :: 0 <= i < j < |st.exchanged| && st.exchanged[i].jti.Some? ==> st.exchanged[i] != st.exchanged[j]
  }

  ghost predicate UniqueJtis(st: State) {
    forall t, u :: t in st.issued && u in st.issued && t.jti.Some? && t.jti == u.jti ==> t == u
  }

  ghost predicate Unspent(st: State, t: Token) {
    t !in st.exchanged
  }

  /** Of each rotation chain at most one token has not been exchanged yet. */
  ghost predicate OneTip(st: State) {
    forall t, u ::
      (t in st.issued && u in st.issued && t.familyId.Some? && t.familyId == u.familyId && Unspent(st, t)
          && Unspent(st, u))
      ==> t == u
  }

  ghost predicate KeyKnown(st: State, k: Key) {
    (k.RotatedJti? ==> k.jti < st.nextId) && (k.RevokedFamily? ==> k.familyId < st.nextId)
  }

  ghost predicate Inv(cfg: Config, st: State) {
    && (forall t :: t in st.issued ==> WellIssued(cfg, st, t))
    && (forall t :: t in st.exchanged ==> t in st.issued && MarkOutlives(st, t))
    && (forall k :: k in st.redis ==> KeyKnown(st, k))
    && UniqueJtis(st) && OneTip(st) && ExchangedOnce(st)
  }

  lemma MarkedIsRotated(st: State, t: Token)
    requires t.jti.Some? && MarkOutlives(st, t) && Seconds(st.now) < t.exp
    ensures AlreadyRotated(st, t)
  {
  }

  lemma IssueKeepsInv(cfg: Config, st: State, user: UserId, family: Option<nat>)
    requires Inv(cfg, st) && user in st.users
    requires family.Some? ==> family.value < st.nextId
    requires family.Some? ==> forall t :: t in st.issued && t.familyId == family ==> t in st.exchanged
    ensures Inv(cfg, IssueTokenPair(cfg, st, user, family).0)
  {
    var (st', access, refresh) := IssueTokenPair(cfg, st, user, family);
    assert refresh !in st.issued;
    assert access.jti.None? && access.familyId.None?;
    forall t, u | t in st'.issued && u in st'.issued && t.familyId.Some? && t.familyId == u.familyId
                  && Unspent(st', t) && Unspent(st', u)
      ensures t == u
    {
      assert Unspent(st, t) && Unspent(st, u);
    }
  }

  /** Marking and recording an exchanged token leaves its family without a tip. */
  lemma ExchangeKeepsInv(cfg: Config, st: State, t: Token)
    requires Inv(cfg, st) && Admissible(st, t) && !AlreadyRotated(st, t)
    ensures Inv(cfg, Exchanged(st, t))
    ensures t.familyId.Some? ==> forall u :: u in st.issued && u.familyId == t.familyId ==>
      u in Exchanged(st, t).exchanged
  {
    var mid := Exchanged(st, t);
    if t in st.exchanged && t.jti.Some? {
      MarkedIsRotated(st, t);
      assert false;
    }
    forall u | u in mid.exchanged ensures u in mid.issued && MarkOutlives(mid, u) {
      if u != t {
        assert MarkOutlives(st, u) && (u.jti.Some? ==> u.jti != t.jti);
      }
    }
    assert Unspent(st, t) || t.jti.None?;
    forall u | u in st.issued && u.familyId == t.familyId && t.familyId.Some? ensures u in mid.exchanged {
      assert Unspent(st, u) ==> u == t;
    }
    forall u, v | u in mid.issued && v in mid.issued && u.familyId.Some? && u.familyId == v.familyId
                  && Unspent(mid, u) && Unspent(mid, v)
      ensures u == v
    {
      assert Unspent(st, u) && Unspent(st, v);
    }
  }

  lemma RefreshKeepsInv(cfg: Config, st: State, t: Token)
    requires Inv(cfg, st)
    ensures Inv(cfg, RefreshStep(cfg, st, t).0)
  {
    if Admissible(st, t) {
      if AlreadyRotated(st, t) {
        RevokeKeepsInv(cfg, st, t);
      } else {
        ExchangeKeepsInv(cfg, st, t);
        IssueKeepsInv(cfg, Exchanged(st, t), t.sub, t.familyId);
      }
    }
  }

  lemma RevokeKeepsInv(cfg: Config, st: State, t: Token)
    requires Inv(cfg, st) && t in st.issued
    ensures t.familyId.Some? ==>
              Inv(cfg, BumpVersion(
                st.(redis := SetEx(st.redis, RevokedFamily(t.familyId.value), cfg.familyTtl, st.now)), t.sub))
    ensures t.familyId.None? ==> Inv(cfg, BumpVersion(st, t.sub))
  {
    BumpKeepsInv(cfg, st, t.sub);
    if t.familyId.Some? {
      var mid := st.(redis := SetEx(st.redis, RevokedFamily(t.familyId.value), cfg.familyTtl, st.now));
      SameTokensSameInv(cfg, st, mid);
      BumpKeepsInv(cfg, mid, t.sub);
    }
  }

  /** Only rotated marks matter to the invariant; other keys, versions and time may move on. */
  lemma SameTokensSameInv(cfg: Config, st: State, st': State)
    requires Inv(cfg, st)
    requires st'.issued == st.issued && st'.exchanged == st.exchanged && st'.nextId == st.nextId && st'.now >= st.now
    requires forall user :: user in st.users ==> user in st'.users && st.users[user] <= st'.users[user]
    requires forall j :: RotatedJti(j) in st.redis ==>
      RotatedJti(j) in st'.redis && st'.redis[RotatedJti(j)] == st.redis[RotatedJti(j)]
    requires forall k :: k in st'.redis ==> KeyKnown(st, k)
    ensures Inv(cfg, st')
  {
    forall t | t in st'.issued ensures WellIssued(cfg, st', t) {
      assert WellIssued(cfg, st, t);
    }
    forall t | t in st'.exchanged ensures MarkOutlives(st', t) {
      assert MarkOutlives(st, t);
    }
    forall t, u | t in st'.issued && u in st'.issued && t.familyId.Some? && t.familyId == u.familyId
                  && Unspent(st', t) && Unspent(st', u)
      ensures t == u
    {
      assert Unspent(st, t) && Unspent(st, u);
    }
  }

  lemma BumpKeepsInv(cfg: Config, st: State, user: UserId)
    requires Inv(cfg, st)
    ensures Inv(cfg, BumpVersion(st, user))
  {
    SameTokensSameInv(cfg, st, BumpVersion(st, user));
  }

  lemma IssueSep10KeepsInv(cfg: Config, st: State, user: UserId)
    requires Inv(cfg, st) && user in st.users
    ensures Inv(cfg, IssueSep10Pair(cfg, st, user).0)
  {
    var st' := IssueSep10Pair(cfg, st, user).0;
    forall t, u | t in st'.issued && u in st'.issued && t.familyId.Some? && t.familyId == u.familyId
                  && Unspent(st', t) && Unspent(st', u)
      ensures t == u
    {
      assert Unspent(st, t) && Unspent(st, u);
    }
  }

  lemma ApplyKeepsInv(cfg: Config, st: State, op: Op)
    requires Inv(cfg, st)
    ensures Inv(cfg, Apply(cfg, st, op))
  {
    match op
    case Register(user) => SameTokensSameInv(cfg, st, Apply(cfg, st, op));
    case Login(user) => if user in st.users { IssueKeepsInv(cfg, st, user, None); }
    case Sep10Login(user) => if user in st.users { IssueSep10KeepsInv(cfg, st, user); }
    case DoRefresh(t) => RefreshKeepsInv(cfg, st, t);
    case Logout(user, token) => SameTokensSameInv(cfg, st, Apply(cfg, st, op));
    case Invalidate(user) => BumpKeepsInv(cfg, st, user);
    case Tick(ms) => SameTokensSameInv(cfg, st, Apply(cfg, st, op));
  }

  lemma {:induction false} RunKeepsInv(cfg: Config, st: State, ops: seq<Op>)
    requires Inv(cfg, st)
    ensures Inv(cfg, Run(cfg, st, ops))
    decreases |ops|
  {
    if ops != [] {
      ApplyKeepsInv(cfg, st, ops[0]);
      RunKeepsInv(cfg, Apply(cfg, st, ops[0]), ops[1..]);
    }
  }

  // ---- Main results ----

  /** Over every run a refresh token with a jti is exchanged at most once. */
  lemma EachTokenExchangedOnce(cfg: Config, ops: seq<Op>)
    ensures ExchangedOnce(Run(cfg, Init(), ops))
  {
    RunKeepsInv(cfg, Init(), ops);
  }

  /** Over every run each family has at most one token that `refresh` would still exchange. */
  lemma OneAcceptedPerFamily(cfg: Config, ops: seq<Op>, t: Token, u: Token)
    requires var st := Run(cfg, Init(), ops); RefreshAccepted(cfg, st, t) && RefreshAccepted(cfg, st, u)
    requires t.familyId.Some? && t.familyId == u.familyId
    ensures t == u
  {
    var st := Run(cfg, Init(), ops);
    RunKeepsInv(cfg, Init(), ops);
    if t in st.exchanged { MarkedIsRotated(st, t); }
    if u in st.exchanged { MarkedIsRotated(st, u); }
  }

  /** A replay is never exchanged, and it raises the alarm exactly when the token would otherwise pass. */
  lemma ReplayIsCaught(cfg: Config, ops: seq<Op>, t: Token)
    requires var st := Run(cfg, Init(), ops); t in st.exchanged && t.jti.Some?
    ensures var st := Run(cfg, Init(), ops);
            RefreshStep(cfg, st, t).1 == if Admissible(st, t) then ReuseDetected else Rejected
  {
    var st := Run(cfg, Init(), ops);
    RunKeepsInv(cfg, Init(), ops);
    if Admissible(st, t) { MarkedIsRotated(st, t); }
  }

  /** A token older than its user's version is refused in every later state. */
  ghost predicate Outdated(st: State, t: Token) {
    t.sub in st.users && t.version < st.users[t.sub]
  }

  lemma {:induction false} OutdatedForever(cfg: Config, st: State, ops: seq<Op>, t: Token)
    requires Outdated(st, t)
    ensures Outdated(Run(cfg, st, ops), t)
    ensures !AccessAccepted(Run(cfg, st, ops), t) && !RefreshAccepted(cfg, Run(cfg, st, ops), t)
    decreases |ops|
  {
    if ops != [] {
      OutdatedForever(cfg, Apply(cfg, st, ops[0]), ops[1..], t);
    }
  }

  /** After reuse is detected nothing issued to that user before is accepted in any later state. */
  lemma ReuseRevokesEverything(cfg: Config, before: seq<Op>, replayed: Token, after: seq<Op>, t: Token)
    requires var st := Run(cfg, Init(), before);
             RefreshStep(cfg, st, replayed).1 == ReuseDetected && t in st.issued && t.sub == replayed.sub
    ensures var later := Run(cfg, RefreshStep(cfg, Run(cfg, Init(), before), replayed).0, after);
            !AccessAccepted(later, t) && !RefreshAccepted(cfg, later, t)
  {
    RunKeepsInv(cfg, Init(), before);
    OutdatedForever(cfg, RefreshStep(cfg, Run(cfg, Init(), before), replayed).0, after, t);
  }

  /** Logging out, changing the password, revoking sessions and changing the role do the same. */
  lemma InvalidationRevokesEverything(cfg: Config, before: seq<Op>, op: Op, after: seq<Op>, t: Token)
    requires (op.Logout? || op.Invalidate?) && op.user == t.sub
    requires t in Run(cfg, Init(), before).issued
    ensures var later := Run(cfg, Apply(cfg, Run(cfg, Init(), before), op), after);
            !AccessAccepted(later, t) && !RefreshAccepted(cfg, later, t)
  {
    RunKeepsInv(cfg, Init(), before);
    OutdatedForever(cfg, Apply(cfg, Run(cfg, Init(), before), op), after, t);
  }

  /** The pair a refresh hands out works: its refresh token can be exchanged next, its access token opens the guard. */
  lemma RotationContinues(cfg: Config, ops: seq<Op>, t: Token)
    requires cfg.refreshTtl > 0 && cfg.accessTtl > 0 && RefreshAccepted(cfg, Run(cfg, Init(), ops), t)
    ensures var (st', result) := RefreshStep(cfg, Run(cfg, Init(), ops), t);
            RefreshAccepted(cfg, st', result.refreshToken)
                && (!Live(st'.redis, BlockedToken(result.accessToken), st'.now) ==>
                AccessAccepted(st', result.accessToken))
  {
    RunKeepsInv(cfg, Init(), ops);
    var st := Run(cfg, Init(), ops);
    var st' := RefreshStep(cfg, st, t).0;
    RefreshKeepsInv(cfg, st, t);
    assert RotatedJti(st.nextId + 1) !in st'.redis by {
      assert !KeyKnown(st, RotatedJti(st.nextId + 1));
    }
    assert RevokedFamily(st.nextId) !in st'.redis by {
      assert !KeyKnown(st, RevokedFamily(st.nextId));
    }
  }

  // ---- How long what is handed out lasts ----

  /** The access and the refresh token a call returns. */
  function HandedOut(cfg: Config, st: State, op: Op): Option<(Token, Token)> {
    match op
    case Login(user) =>
      if user in st.users then var (_, access, refresh) := IssueTokenPair(cfg, st, user, None); Some((access, refresh))
      else None
    case Sep10Login(user) =>
      if user in st.users then var (_, access, refresh) := IssueSep10Pair(cfg, st, user); Some((access, refresh))
      else None
    case DoRefresh(t) =>
      var result := RefreshStep(cfg, st, t).1;
      if result.Rotated? then Some((result.accessToken, result.refreshToken)) else None
    case _ => None
  }

  function Lifetime(cfg: Config, op: Op): nat {
    if op.Sep10Login? then cfg.sep10RefreshTtl else cfg.refreshTtl
  }

  /** Both tokens carry the user's version and live for their own lifetime from now; only the first opens the guard. */
  lemma HandedOutTokens(cfg: Config, st: State, op: Op)
    requires HandedOut(cfg, st, op).Some?
    ensures var (access, refresh) := HandedOut(cfg, st, op).value;
            var user := if op.DoRefresh? then op.token.sub else op.user;
      && access.typ == Access && access.exp == Seconds(st.now) + cfg.accessTtl
      && refresh.typ == Refresh && refresh.exp == Seconds(st.now) + Lifetime(cfg, op)
      && user in st.users && access.sub == refresh.sub == user && access.version == refresh.version == st.users[user]
      && (refresh.jti.None? <==> op.Sep10Login?) && (refresh.familyId.None? <==> op.Sep10Login?)
      && access in Apply(cfg, st, op).issued && refresh in Apply(cfg, st, op).issued
      && (op.DoRefresh? && op.token.familyId.Some? ==> refresh.familyId == op.token.familyId)
  {
  }

  /** A signed token stays signed, its user known and its version no lower than it was. */
  lemma {:induction false} SignedStays(cfg: Config, st: State, ops: seq<Op>, t: Token)
    requires t in st.issued && t.sub in st.users && t.version <= st.users[t.sub]
    ensures var later := Run(cfg, st, ops); t in later.issued && t.sub in later.users && t.version <= later.users[t.sub]
    decreases |ops|
  {
    if ops != [] {
      SignedStays(cfg, Apply(cfg, st, ops[0]), ops[1..], t);
    }
  }

  /**
   An access token opens the guard for exactly accessTtl seconds from the login, wallet login or refresh that handed
   it out, unless it is blocked or the user's version moves on. The refresh token never opens it.
   */
  lemma AccessLastsIff(cfg: Config, st: State, op: Op, after: seq<Op>)
    requires HandedOut(cfg, st, op).Some?
    ensures var (access, refresh) := HandedOut(cfg, st, op).value;
            var later := Run(cfg, Apply(cfg, st, op), after);
      && access.sub in later.users
      && (AccessAccepted(later, access) <==>
            && later.now / 1000 < st.now / 1000 + cfg.accessTtl
            && !Live(later.redis, BlockedToken(access), later.now) && later.users[access.sub] == st.users[access.sub])
      && !AccessAccepted(later, refresh)
  {
    var (access, refresh) := HandedOut(cfg, st, op).value;
    HandedOutTokens(cfg, st, op);
    VersionNow(cfg, st, op);
    SignedStays(cfg, Apply(cfg, st, op), after, access);
    SignedStays(cfg, Apply(cfg, st, op), after, refresh);
  }

  lemma VersionNow(cfg: Config, st: State, op: Op)
    requires HandedOut(cfg, st, op).Some?
    ensures Apply(cfg, st, op).users == st.users
  {
  }

  /**
   A refresh token can be exchanged for exactly its own lifetime, unless the version moves on, its family is revoked,
   or it was exchanged before. An access token can never be exchanged.
   */
  lemma RefreshLastsIff(cfg: Config, st: State, op: Op, after: seq<Op>)
    requires HandedOut(cfg, st, op).Some?
    ensures var (access, refresh) := HandedOut(cfg, st, op).value;
            var later := Run(cfg, Apply(cfg, st, op), after);
      && refresh.sub in later.users
      && (RefreshAccepted(cfg, later, refresh) <==>
            && later.now / 1000 < st.now / 1000 + (if op.Sep10Login? then cfg.sep10RefreshTtl else cfg.refreshTtl)
            && later.users[refresh.sub] == st.users[refresh.sub]
            && (refresh.familyId.Some? ==> !Live(later.redis, RevokedFamily(refresh.familyId.value), later.now))
            && (refresh.jti.Some? ==> !Live(later.redis, RotatedJti(refresh.jti.value), later.now)))
      && !RefreshAccepted(cfg, later, access)
  {
    var (access, refresh) := HandedOut(cfg, st, op).value;
    HandedOutTokens(cfg, st, op);
    VersionNow(cfg, st, op);
    SignedStays(cfg, Apply(cfg, st, op), after, access);
    SignedStays(cfg, Apply(cfg, st, op), after, refresh);
  }

  /** The mark of an exchanged token, and that of a blocked one, expires with the token, to the second. */
  lemma MarksLast(cfg: Config, st: State, t: Token, user: UserId)
    requires st.now / 1000 < t.exp
    ensures RefreshAccepted(cfg, st, t) && t.jti.Some? ==>
      var redis := RefreshStep(cfg, st, t).0.redis;
      RotatedJti(t.jti.value) in redis && 1000 * t.exp <= redis[RotatedJti(t.jti.value)] < 1000 * t.exp + 1000
    ensures var redis := LogoutStep(st, user, Some(t)).redis;
      BlockedToken(t) in redis && 1000 * t.exp <= redis[BlockedToken(t)] < 1000 * t.exp + 1000
  {
    assert st.now == 1000 * (st.now / 1000) + st.now % 1000;
  }

  /** A blocked token's mark lasts as long as the token. */
  ghost predicate BlockedForLife(st: State, t: Token) {
    BlockedToken(t) in st.redis && st.redis[BlockedToken(t)] >= 1000 * t.exp
  }

  lemma {:induction false} BlockedStays(cfg: Config, st: State, ops: seq<Op>, t: Token)
    requires BlockedForLife(st, t) || !(Seconds(st.now) < t.exp)
    ensures !AccessAccepted(Run(cfg, st, ops), t)
    decreases |ops|
  {
    if ops != [] {
      var st' := Apply(cfg, st, ops[0]);
      assert BlockedForLife(st', t) || !(Seconds(st'.now) < t.exp);
      BlockedStays(cfg, st', ops[1..], t);
    }
  }

  /** The token presented at a logout is refused for ever, whosever it is and whether or not the user exists. */
  lemma PresentedIsBlocked(cfg: Config, st: State, user: UserId, t: Token, after: seq<Op>)
    ensures !AccessAccepted(Run(cfg, LogoutStep(st, user, Some(t)), after), t)
  {
    BlockedStays(cfg, LogoutStep(st, user, Some(t)), after, t);
  }

  // ---- The family mark on its own ----

  /** No token of the family gets past the family check or its own expiry, whatever the version counter says. */
  ghost predicate FamilyDead(st: State, family: nat) {
    forall t :: t in st.issued && t.familyId == Some(family) ==> FamilyRevoked(st, t) || !Verified(st, t)
  }

  /** The mark lasts as long as every token of the family issued so far. */
  ghost predicate FamilyBuried(st: State, family: nat) {
    && family < st.nextId && RevokedFamily(family) in st.redis
    && forall t :: t in st.issued && t.familyId == Some(family) ==> 1000 * t.exp <= st.redis[RevokedFamily(family)]
  }

  lemma BuriedIsDead(st: State, family: nat)
    requires FamilyBuried(st, family)
    ensures FamilyDead(st, family)
  {
  }

  lemma BuriedStays(cfg: Config, st: State, op: Op, family: nat)
    requires cfg.familyTtl >= cfg.refreshTtl && Inv(cfg, st) && FamilyBuried(st, family)
    ensures FamilyBuried(Apply(cfg, st, op), family)
  {
    BuriedIsDead(st, family);
  }

  lemma {:induction false} BuriedForever(cfg: Config, st: State, ops: seq<Op>, family: nat)
    requires cfg.familyTtl >= cfg.refreshTtl && Inv(cfg, st) && FamilyBuried(st, family)
    ensures FamilyDead(Run(cfg, st, ops), family)
    decreases |ops|
  {
    if ops == [] {
      BuriedIsDead(st, family);
    } else {
      ApplyKeepsInv(cfg, st, ops[0]);
      BuriedStays(cfg, st, ops[0], family);
      BuriedForever(cfg, Apply(cfg, st, ops[0]), ops[1..], family);
    }
  }

  ghost predicate ReuseAt(cfg: Config, before: seq<Op>, t: Token) {
    t.familyId.Some? && RefreshStep(cfg, Run(cfg, Init(), before), t).1 == ReuseDetected
  }

  function AfterReplay(cfg: Config, before: seq<Op>, t: Token, after: seq<Op>): State {
    Run(cfg, RefreshStep(cfg, Run(cfg, Init(), before), t).0, after)
  }

  lemma ReuseBuriesFamily(cfg: Config, before: seq<Op>, t: Token, after: seq<Op>)
    requires cfg.refreshTtl <= cfg.familyTtl && ReuseAt(cfg, before, t)
    ensures FamilyDead(AfterReplay(cfg, before, t, after), t.familyId.value)
  {
    var st := Run(cfg, Init(), before);
    RunKeepsInv(cfg, Init(), before);
    RefreshKeepsInv(cfg, st, t);
    var st' := RefreshStep(cfg, st, t).0;
    assert FamilyBuried(st', t.familyId.value);
    BuriedForever(cfg, st', after, t.familyId.value);
  }

  /** Once reuse is detected the whole family stays dead, whatever happens afterwards. */
  ghost predicate RevocationOutlivesFamily(cfg: Config) {
    forall before, t, after :: ReuseAt(cfg, before, t) ==>
        FamilyDead(AfterReplay(cfg, before, t, after), t.familyId.value)
  }

  /** A family mark shorter than the tokens it must outlive lets one through once it expires. */
  lemma ShortMarkIsOutlived(cfg: Config)
    requires cfg.familyTtl < cfg.refreshTtl
    ensures !RevocationOutlivesFamily(cfg)
  {
    var spent := Token("u", 0, Refresh, Some(1), Some(0), cfg.refreshTtl);
    var tip := Token("u", 0, Refresh, Some(3), Some(0), cfg.refreshTtl);
    var before := [Register("u"), Login("u"), DoRefresh(spent)];
    var after := [Tick(1000 * cfg.familyTtl)];
    var s1 := Apply(cfg, Init(), before[0]);
    var s2 := Apply(cfg, s1, before[1]);
    var s3 := Apply(cfg, s2, before[2]);
    RunOfThree(cfg, Init(), before);
    assert spent in s2.issued && Admissible(s2, spent);
    assert tip in s3.issued && AlreadyRotated(s3, spent);
    assert ReuseAt(cfg, before, spent);
    var s4 := RefreshStep(cfg, s3, spent).0;
    assert Run(cfg, s4, after) == Apply(cfg, s4, after[0]);
    assert !FamilyDead(AfterReplay(cfg, before, spent, after), 0);
  }

  lemma RunOfThree(cfg: Config, st: State, ops: seq<Op>)
    requires |ops| == 3
    ensures Run(cfg, st, ops) == Apply(cfg, Apply(cfg, Apply(cfg, st, ops[0]), ops[1]), ops[2])
  {
    assert ops[1..][1..] == [ops[2]];
    assert Run(cfg, Apply(cfg, Apply(cfg, st, ops[0]), ops[1]), [ops[2]])
        == Apply(cfg, Apply(cfg, Apply(cfg, st, ops[0]), ops[1]), ops[2]);
  }

  /** The family revocation outlives the family exactly when it is given at least the refresh lifetime. */
  lemma FamilyRevocationIff(cfg: Config)
    ensures RevocationOutlivesFamily(cfg) <==> cfg.familyTtl >= cfg.refreshTtl
  {
    if cfg.familyTtl >= cfg.refreshTtl {
      forall before, t, after | ReuseAt(cfg, before, t)
        ensures FamilyDead(AfterReplay(cfg, before, t, after), t.familyId.value)
      {
        ReuseBuriesFamily(cfg, before, t, after);
      }
    } else {
      ShortMarkIsOutlived(cfg);
    }
  }

  /** Without a jti there is nothing to mark: the exchanged token can be exchanged again at once. */
  lemma WithoutJtiExchangesRepeat(cfg: Config, ops: seq<Op>, t: Token)
    requires t.jti.None? && RefreshAccepted(cfg, Run(cfg, Init(), ops), t)
    ensures RefreshAccepted(cfg, Run(cfg, Init(), ops + [DoRefresh(t)]), t)
  {
    RunConcat(cfg, Init(), ops, [DoRefresh(t)]);
    RunKeepsInv(cfg, Init(), ops);
  }

  /** Such a token is handed out: a wallet login's refresh token is exchanged twice. */
  lemma WalletTokenRepeats(cfg: Config)
    requires cfg.sep10RefreshTtl > 0
    ensures var ops := [Register("u"), Sep10Login("u")];
            var t := Token("u", 0, Refresh, None, None, cfg.sep10RefreshTtl);
            && RefreshAccepted(cfg, Run(cfg, Init(), ops), t)
            && RefreshAccepted(cfg, Run(cfg, Init(), ops + [DoRefresh(t)]), t)
  {
    var ops := [Register("u"), Sep10Login("u")];
    var t := Token("u", 0, Refresh, None, None, cfg.sep10RefreshTtl);
    var known := Apply(cfg, Init(), ops[0]);
    var loggedIn := Apply(cfg, known, ops[1]);
    assert ops[1..] == [ops[1]] && Run(cfg, known, [ops[1]]) == Run(cfg, loggedIn, []);
    assert t in loggedIn.issued;
    WithoutJtiExchangesRepeat(cfg, ops, t);
  }

  lemma {:induction false} RunConcat(cfg: Config, st: State, a: seq<Op>, b: seq<Op>)
    ensures Run(cfg, st, a + b) == Run(cfg, Run(cfg, st, a), b)
    decreases |a|
  {
    if a == [] {
      assert a + b == b;
    } else {
      assert (a + b)[1..] == a[1..] + b;
      RunConcat(cfg, Apply(cfg, st, a[0]), a[1..], b);
    }
  }
}
