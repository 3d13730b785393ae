/** Sessions and refresh-token rotation (api/auth/service.go). Each public call is one atomic step; token
    values are opaque, so a presented refresh token is the id of its row. */
module Sessions {
  import opened Text

  datatype Status = Active | Revoked

  datatype Session = Session(userID: string, status: Status, lastSeenAt: int, expiresAt: int, createdAt: int,
                             revokedAt: Option<int>)

  datatype Token = Token(sessionID: nat, rotatedFrom: Option<nat>, consumedAt: Option<int>, expiresAt: int,
                         createdAt: int)

  /** The tables auth_sessions and auth_refresh_tokens. */
  datatype Db = Db(sessions: map<nat, Session>, tokens: map<nat, Token>)

  datatype Config = Config(refreshTTL: int, refreshIdle: int)

  /** What a caller presents after trimming. */
  datatype Credential = Blank | Access(sessionID: nat) | Refresh(token: nat) | Unknown

  datatype Error = Unauthorized | TokenReuse | TokenExpired | SessionRevoked | Database

  datatype Reply = Issued(sessionID: nat, token: nat, expiresAt: int) | LoggedOut | Failed(error: Error)

  /** The clock, the fresh ids, and which reads and writes of the database succeed during one call. */
  datatype Env = Env(now: int, newSession: nat, newToken: nat, tokenRead: bool, sessionRead: bool, userRead: bool,
                     revokeWrite: bool, commit: bool)

  function RevokeSession(db: Db, sid: nat, now: int): Db {
    if sid in db.sessions then
      var s := db.sessions[sid];
      var revokedAt := if s.revokedAt.Some? then s.revokedAt else Some(now);
      db.(sessions := db.sessions[sid := s.(status := Revoked, revokedAt := revokedAt)])
    else db
  }

  function InsertToken(db: Db, sid: nat, now: int, id: nat, rotatedFrom: Option<nat>, expiresAt: int): Db {
    db.(tokens := db.tokens[id := Token(sid, rotatedFrom, None, expiresAt, now)])
  }

  function Login(cfg: Config, db: Db, userID: string, env: Env): (Reply, Db) {
    if !env.commit then (Failed(Database), db)
    else
      var expiresAt := env.now + cfg.refreshTTL;
      var session := Session(userID, Active, env.now, expiresAt, env.now, None);
      var withSession := db.(sessions := db.sessions[env.newSession := session]);
      (Issued(env.newSession, env.newToken, expiresAt),
       InsertToken(withSession, env.newSession, env.now, env.newToken, None, expiresAt))
  }

  /** Consumes `id`, touches its session and issues the next token. */
  function Rotate(cfg: Config, db: Db, id: nat, env: Env): (Reply, Db)
    requires id in db.tokens && db.tokens[id].sessionID in db.sessions
  {
    var sid := db.tokens[id].sessionID;
    var used := Db(db.sessions[sid := db.sessions[sid].(lastSeenAt := env.now)],
                   db.tokens[id := db.tokens[id].(consumedAt := Some(env.now))]);
    var expiresAt := env.now + cfg.refreshTTL;
    (Issued(sid, env.newToken, expiresAt), InsertToken(used, sid, env.now, env.newToken, Some(id), expiresAt))
  }

  function RefreshCall(cfg: Config, db: Db, cred: Credential, env: Env): (Reply, Db) {
    if cred.Blank? then (Failed(Unauthorized), db)
    else if !env.tokenRead then (Failed(Database), db)
    else if !cred.Refresh? || cred.token !in db.tokens then (Failed(Unauthorized), db)
    else
      var ref := db.tokens[cred.token];
      if ref.consumedAt.Some? then
        (Failed(TokenReuse), if env.revokeWrite then RevokeSession(db, ref.sessionID, env.now) else db)
      else if env.now > ref.expiresAt then (Failed(TokenExpired), db)
      else if !env.sessionRead then (Failed(Database), db)
      else if ref.sessionID !in db.sessions then (Failed(Unauthorized), db)
      else
        var session := db.sessions[ref.sessionID];
        if session.status != Active then (Failed(SessionRevoked), db)
        else if env.now > session.expiresAt || env.now - session.lastSeenAt > cfg.refreshIdle then
          (Failed(Unauthorized), if env.revokeWrite then RevokeSession(db, ref.sessionID, env.now) else db)
        else if !env.userRead || !env.commit then (Failed(Database), db)
        else Rotate(cfg, db, cred.token, env)
  }

  function LogoutCall(db: Db, cred: Credential, env: Env): (Reply, Db) {
    if cred.Blank? then (LoggedOut, db)
    else if cred.Refresh? && !env.tokenRead then (Failed(Database), db)
    else if cred.Unknown? || (cred.Refresh? && cred.token !in db.tokens) then
      (Failed(if env.tokenRead then Unauthorized else Database), db)
    else if !env.revokeWrite then (Failed(Database), db)
    else
      var sid := if cred.Access? then cred.sessionID else db.tokens[cred.token].sessionID;
      (LoggedOut, RevokeSession(db, sid, env.now))
  }

  class Service {
    const cfg: Config
    var sessions: map<nat, Session>
    var tokens: map<nat, Token>

    constructor (cfg: Config)
      ensures this.cfg == cfg && Tables() == Db(map[], map[])
    {
      this.cfg := cfg;
      sessions, tokens := map[], map[];
    }

    ghost function Tables(): Db
      reads this
    {
      Db(sessions, tokens)
    }

    method Revoke(sid: nat, now: int, writes: bool) returns (ok: bool)
      modifies this
      ensures ok == writes
      ensures Tables() == if writes then RevokeSession(old(Tables()), sid, now) else old(Tables())
    {
      if writes && sid in sessions {
        var s := sessions[sid];
        var revokedAt := if s.revokedAt.None? then Some(now) else s.revokedAt;
        sessions := sessions[sid := s.(status := Revoked, revokedAt := revokedAt)];
      }
      ok := writes;
    }

    method InsertRefreshToken(sid: nat, now: int, id: nat, rotatedFrom: Option<nat>, expiresAt: int)
      modifies this
      ensures Tables() == InsertToken(old(Tables()), sid, now, id, rotatedFrom, expiresAt)
    {
      tokens := tokens[id := Token(sid, rotatedFrom, None, expiresAt, now)];
    }

    method CreateSession(userID: string, env: Env) returns (r: Reply)
      modifies this
      ensures (r, Tables()) == Login(cfg, old(Tables()), userID, env)
    {
      var savedSessions, savedTokens := sessions, tokens;
      sessions := sessions[env.newSession := Session(userID, Active, env.now, env.now + cfg.refreshTTL, env.now, None)];
      InsertRefreshToken(env.newSession, env.now, env.newToken, None, env.now + cfg.refreshTTL);
      if !env.commit {
        sessions, tokens := savedSessions, savedTokens;
        return Failed(Database);
      }
      r := Issued(env.newSession, env.newToken, env.now + cfg.refreshTTL);
    }

    method RefreshSession(cred: Credential, env: Env) returns (r: Reply)
      modifies this
      ensures (r, Tables()) == RefreshCall(cfg, old(Tables()), cred, env)
    {
      if cred.Blank? {
        return Failed(Unauthorized);
      }
      if !env.tokenRead {
        return Failed(Database);
      }
      if !cred.Refresh? || cred.token !in tokens {
        return Failed(Unauthorized);
      }
      var ref := tokens[cred.token];
      if ref.consumedAt.Some? {
        var _ := Revoke(ref.sessionID, env.now, env.revokeWrite);
        return Failed(TokenReuse);
      }
      if env.now > ref.expiresAt {
        return Failed(TokenExpired);
      }
      if !env.sessionRead {
        return Failed(Database);
      }
      if ref.sessionID !in sessions {
        return Failed(Unauthorized);
      }
      var session := sessions[ref.sessionID];
      if session.status != Active {
        return Failed(SessionRevoked);
      }
      if env.now > session.expiresAt || env.now - session.lastSeenAt > cfg.refreshIdle {
        var _ := Revoke(ref.sessionID, env.now, env.revokeWrite);
        return Failed(Unauthorized);
      }
      if !env.userRead {
        return Failed(Database);
      }
      var savedSessions, savedTokens := sessions, tokens;
      tokens := tokens[cred.token := ref.(consumedAt := Some(env.now))];
      sessions := sessions[ref.sessionID := session.(lastSeenAt := env.now)];
      InsertRefreshToken(ref.sessionID, env.now, env.newToken, Some(cred.token), env.now + cfg.refreshTTL);
      if !env.commit {
        sessions, tokens := savedSessions, savedTokens;
        return Failed(Database);
      }
      r := Issued(ref.sessionID, env.newToken, env.now + cfg.refreshTTL);
    }

    method Logout(cred: Credential, env: Env) returns (r: Reply)
      modifies this
      ensures (r, Tables()) == LogoutCall(old(Tables()), cred, env)
    {
      if cred.Blank? {
        return LoggedOut;
      }
      var sid: nat;
      if cred.Access? {
        sid := cred.sessionID;
      } else {
        if !env.tokenRead {
          return Failed(Database);
        }
        if cred.Unknown? || cred.token !in tokens {
          return Failed(Unauthorized);
        }
        sid := tokens[cred.token].sessionID;
      }
      var ok := Revoke(sid, env.now, env.revokeWrite);
      r := if ok then LoggedOut else Failed(Database);
    }
  }

  // ----- Runs -----

  datatype Call =
    | DoLogin(userID: string, env: Env)
    | DoRefresh(cred: Credential, env: Env)
    | DoLogout(cred: Credential, env: Env)

  function Apply(cfg: Config, db: Db, c: Call): (Reply, Db) {
    match c
    case DoLogin(userID, env) => Login(cfg, db, userID, env)
    case DoRefresh(cred, env) => RefreshCall(cfg, db, cred, env)
    case DoLogout(cred, env) => LogoutCall(db, cred, env)
  }

  ghost predicate FreshIds(db: Db, c: Call) {
    c.env.newToken !in db.tokens && c.env.newSession !in db.sessions
  }

  /** The databases of a run from empty tables: ids are fresh and the clock does not go back. */
  ghost predicate Run(cfg: Config, dbs: seq<Db>, calls: seq<Call>) {
    && |dbs| == |calls| + 1
    && dbs[0] == Db(map[], map[])
    && (forall i :: 0 <= i < |calls| ==> FreshIds(dbs[i], calls[i]) && dbs[i + 1] == Apply(cfg, dbs[i], calls[i]).1)
    && (forall i, j :: 0 <= i < j < |calls| ==> calls[i].env.now <= calls[j].env.now)
  }

  // ----- The shape of the token chains -----

  /** Place `i` of the chain `c`: a token of session `s`, rotated from the one before it, unconsumed just
      when it is the last. */
  ghost predicate Link(db: Db, s: nat, c: seq<nat>, i: int)
    requires 0 <= i < |c|
  {
    && c[i] in db.tokens
    && db.tokens[c[i]].sessionID == s
    && db.tokens[c[i]].rotatedFrom == (if i == 0 then None else Some(c[i - 1]))
    && (db.tokens[c[i]].consumedAt.None? <==> i == |c| - 1)
  }

  /** `c` lists exactly the tokens of session `s`, linked by `rotated_from`. */
  ghost predicate IsChain(db: Db, s: nat, c: seq<nat>) {
    && c != []
    && (forall i :: 0 <= i < |c| ==> Link(db, s, c, i))
    && (forall t :: t in db.tokens && db.tokens[t].sessionID == s ==> t in c)
  }

  /** A chain repeats no token. */
  lemma {:induction false} ChainDistinct(db: Db, s: nat, c: seq<nat>, i: nat, j: nat)
    requires IsChain(db, s, c) && i < j < |c|
    ensures c[i] != c[j]
  {
    assert Link(db, s, c, i) && Link(db, s, c, j);
    if i > 0 {
      ChainDistinct(db, s, c, i - 1, j - 1);
    }
  }

  ghost predicate Chained(db: Db, s: nat) {
    exists c :: IsChain(db, s, c)
  }

  ghost predicate ChainsOk(db: Db) {
    && (forall s :: s in db.sessions ==> Chained(db, s))
    && (forall t :: t in db.tokens ==> db.tokens[t].sessionID in db.sessions)
  }

  /** The live token of a chain is its last one. */
  lemma LiveTokenIsLast(db: Db, id: nat, c: seq<nat>)
    requires id in db.tokens && db.tokens[id].consumedAt.None? && IsChain(db, db.tokens[id].sessionID, c)
    ensures c[|c| - 1] == id
  {
    var k :| 0 <= k < |c| && c[k] == id;
    assert Link(db, db.tokens[id].sessionID, c, k);
  }

  /** Rotating the live token of a session extends that session's chain by the new token. */
  lemma RotateExtendsChain(cfg: Config, db: Db, id: nat, env: Env, c: seq<nat>)
    requires id in db.tokens && db.tokens[id].sessionID in db.sessions && db.tokens[id].consumedAt.None?
    requires env.newToken !in db.tokens && IsChain(db, db.tokens[id].sessionID, c)
    ensures IsChain(Rotate(cfg, db, id, env).1, db.tokens[id].sessionID, c + [env.newToken])
  {
    LiveTokenIsLast(db, id, c);
    var db', c', s := Rotate(cfg, db, id, env).1, c + [env.newToken], db.tokens[id].sessionID;
    forall i | 0 <= i < |c'|
      ensures Link(db', s, c', i)
    {
      if i < |c| {
        assert Link(db, s, c, i);
        if i < |c| - 1 {
          ChainDistinct(db, s, c, i, |c| - 1);
        }
      }
    }
    forall t | t in db'.tokens && db'.tokens[t].sessionID == s
      ensures t in c'
    {
      assert t == env.newToken || t in c;
    }
  }

  /** It leaves the chains of the other sessions alone. */
  lemma RotateKeepsOtherChains(cfg: Config, db: Db, id: nat, env: Env, s: nat, c: seq<nat>)
    requires id in db.tokens && db.tokens[id].sessionID in db.sessions && db.tokens[id].sessionID != s
    requires env.newToken !in db.tokens && IsChain(db, s, c)
    ensures IsChain(Rotate(cfg, db, id, env).1, s, c)
  {
    forall i | 0 <= i < |c|
      ensures Link(Rotate(cfg, db, id, env).1, s, c, i)
    {
      assert Link(db, s, c, i);
    }
  }

  /** A step that leaves the tokens of a session alone leaves its chain alone. */
  lemma SameTokensSameChain(db: Db, db': Db, s: nat, c: seq<nat>)
    requires IsChain(db, s, c)
    requires forall t :: t in db.tokens ==> t in db'.tokens && db'.tokens[t] == db.tokens[t]
    requires forall t :: t in db'.tokens && db'.tokens[t].sessionID == s ==> t in db.tokens
    ensures IsChain(db', s, c)
  {
    forall i | 0 <= i < |c|
      ensures Link(db', s, c, i)
    {
      assert Link(db, s, c, i);
    }
  }

  lemma StepChain(cfg: Config, db: Db, c: Call, s: nat)
    requires ChainsOk(db) && FreshIds(db, c) && s in db.sessions
    ensures Chained(Apply(cfg, db, c).1, s)
  {
    var (r, db') := Apply(cfg, db, c);
    assert Chained(db, s);
    var chain :| IsChain(db, s, chain);
    if c.DoRefresh? && r.Issued? {
      if db.tokens[c.cred.token].sessionID == s {
        RotateExtendsChain(cfg, db, c.cred.token, c.env, chain);
      } else {
        RotateKeepsOtherChains(cfg, db, c.cred.token, c.env, s, chain);
      }
    } else {
      SameTokensSameChain(db, db', s, chain);
    }
  }

  /** Every step keeps, for every session, one linear chain that ends in its only unconsumed token. */
  lemma StepKeepsChains(cfg: Config, db: Db, c: Call)
    requires ChainsOk(db) && FreshIds(db, c)
    ensures ChainsOk(Apply(cfg, db, c).1)
  {
    var db' := Apply(cfg, db, c).1;
    forall s | s in db'.sessions
      ensures Chained(db', s)
    {
      if s in db.sessions {
        StepChain(cfg, db, c, s);
      } else {
        assert Link(db', s, [c.env.newToken], 0);
        assert IsChain(db', s, [c.env.newToken]);
      }
    }
  }

  lemma {:induction false} ChainsAlways(cfg: Config, dbs: seq<Db>, calls: seq<Call>, i: nat)
    requires Run(cfg, dbs, calls) && i < |dbs|
    ensures ChainsOk(dbs[i])
  {
    if i == 0 {
    } else {
      ChainsAlways(cfg, dbs, calls, i - 1);
      StepKeepsChains(cfg, dbs[i - 1], calls[i - 1]);
    }
  }

  /** In every state of every run a session has exactly one unconsumed token, and it is the end of the one
      `rotated_from` chain that lists all its tokens. */
  lemma OneLiveToken(cfg: Config, dbs: seq<Db>, calls: seq<Call>, i: nat, s: nat) returns (c: seq<nat>)
    requires Run(cfg, dbs, calls) && i < |dbs| && s in dbs[i].sessions
    ensures IsChain(dbs[i], s, c)
    ensures forall t :: t in dbs[i].tokens && dbs[i].tokens[t].sessionID == s ==>
                          (dbs[i].tokens[t].consumedAt.None? <==> t == c[|c| - 1])
  {
    ChainsAlways(cfg, dbs, calls, i);
    assert Chained(dbs[i], s);
    c :| IsChain(dbs[i], s, c);
    forall t | t in dbs[i].tokens && dbs[i].tokens[t].sessionID == s
      ensures dbs[i].tokens[t].consumedAt.None? <==> t == c[|c| - 1]
    {
      var k :| 0 <= k < |c| && c[k] == t;
      assert Link(dbs[i], s, c, k) && Link(dbs[i], s, c, |c| - 1);
    }
  }

  // ----- Revocation is final -----

  ghost predicate IsRevoked(db: Db, s: nat) {
    s in db.sessions && db.sessions[s].status == Revoked
  }

  lemma {:induction false} RevokedForever(cfg: Config, dbs: seq<Db>, calls: seq<Call>, i: nat, j: nat, s: nat)
    requires Run(cfg, dbs, calls) && i <= j < |dbs| && IsRevoked(dbs[i], s)
    ensures IsRevoked(dbs[j], s)
  {
    if i == j {
    } else {
      RevokedForever(cfg, dbs, calls, i, j - 1, s);
    }
  }

  /** The time of a revocation never changes again. */
  lemma {:induction false} RevocationTimeKept(cfg: Config, dbs: seq<Db>, calls: seq<Call>, i: nat, j: nat, s: nat)
    requires Run(cfg, dbs, calls) && i <= j < |dbs| && IsRevoked(dbs[i], s) && dbs[i].sessions[s].revokedAt.Some?
    ensures IsRevoked(dbs[j], s) && dbs[j].sessions[s].revokedAt == dbs[i].sessions[s].revokedAt
  {
    if i == j {
    } else {
      RevocationTimeKept(cfg, dbs, calls, i, j - 1, s);
    }
  }

  /** `c` presents a refresh token that belongs to session `s`. */
  ghost predicate Presents(db: Db, c: Call, s: nat) {
    c.DoRefresh? && c.cred.Refresh? && c.cred.token in db.tokens && db.tokens[c.cred.token].sessionID == s
  }

  /** After a written revocation no refresh with a token of the session succeeds. */
  lemma RevokedRefusesRefresh(cfg: Config, dbs: seq<Db>, calls: seq<Call>, i: nat, j: nat, s: nat)
    requires Run(cfg, dbs, calls) && i <= j < |calls| && IsRevoked(dbs[i], s) && Presents(dbs[j], calls[j], s)
    ensures Apply(cfg, dbs[j], calls[j]).0.Failed?
  {
    RevokedForever(cfg, dbs, calls, i, j, s);
  }

  /** Presenting a consumed token, with the token row read and the revocation written, makes every later
      refresh with any token of that session fail. */
  lemma ReuseIsFatal(cfg: Config, dbs: seq<Db>, calls: seq<Call>, i: nat, j: nat, s: nat)
    requires Run(cfg, dbs, calls) && i < j < |calls|
    requires Presents(dbs[i], calls[i], s) && dbs[i].tokens[calls[i].cred.token].consumedAt.Some?
    requires calls[i].env.tokenRead && calls[i].env.revokeWrite
    requires Presents(dbs[j], calls[j], s)
    ensures Apply(cfg, dbs[i], calls[i]).0 == Failed(TokenReuse)
    ensures Apply(cfg, dbs[j], calls[j]).0.Failed?
    ensures IsRevoked(dbs[j + 1], s)
  {
    ChainsAlways(cfg, dbs, calls, i);
    assert IsRevoked(dbs[i + 1], s);
    RevokedForever(cfg, dbs, calls, i + 1, j, s);
    RevokedForever(cfg, dbs, calls, i + 1, j + 1, s);
  }

  /** The reuse reply does not say whether the revocation was written: after it, the live token of the
      session still refreshes if and only if the revocation was lost, the session was active, and the
      session's own limits still hold. */
  lemma RefreshAfterReuse(cfg: Config, db: Db, reuse: Call, next: Call, s: nat)
    requires ChainsOk(db) && Presents(db, reuse, s) && reuse.env.tokenRead
    requires db.tokens[reuse.cred.token].consumedAt.Some?
    requires Presents(db, next, s) && db.tokens[next.cred.token].consumedAt.None?
    requires next.env.tokenRead && next.env.sessionRead && next.env.userRead && next.env.commit
    requires db.sessions[s].expiresAt <= db.tokens[next.cred.token].expiresAt
    ensures Apply(cfg, Apply(cfg, db, reuse).1, next).0.Issued? <==>
            && !reuse.env.revokeWrite
            && db.sessions[s].status == Active
            && next.env.now <= db.sessions[s].expiresAt
            && next.env.now - db.sessions[s].lastSeenAt <= cfg.refreshIdle
  {
    assert s in db.sessions;
  }

  // ----- What each call does -----

  /** `c` logs out of session `s`, by one of its refresh tokens or by an access token. */
  ghost predicate LogsOutOf(db: Db, c: Call, s: nat) {
    && c.DoLogout? && s in db.sessions
    && (c.cred == Access(s)
        || (c.cred.Refresh? && c.cred.token in db.tokens && db.tokens[c.cred.token].sessionID == s))
  }

  /** Both states agree but for the session `s`. */
  ghost predicate SameBut(db: Db, next: Db, s: nat) {
    && next.tokens == db.tokens && next.sessions.Keys == db.sessions.Keys
    && forall x :: x in db.sessions && x != s ==> next.sessions[x] == db.sessions[x]
  }

  /** Logging out replies so exactly when nothing is presented, or the session is found and its revocation written;
      it then revokes that session at this time unless it was revoked before, and touches no other. A failing logout
      changes nothing. */
  lemma LogoutRevokes(cfg: Config, db: Db, c: Call, s: nat)
    requires ChainsOk(db) && LogsOutOf(db, c, s)
    ensures var (r, next) := Apply(cfg, db, c);
            && (r == LoggedOut <==> c.env.revokeWrite && (c.cred.Refresh? ==> c.env.tokenRead))
            && (r == LoggedOut ==> IsRevoked(next, s) && SameBut(db, next, s)
                                   && next.sessions[s].revokedAt
                                      == (if db.sessions[s].revokedAt.Some? then db.sessions[s].revokedAt
                                          else Some(c.env.now)))
            && (r != LoggedOut ==> next == db && r == Failed(Database))
  {
  }

  /** A logout that names no session changes nothing; it fails unless it presents nothing or an access token. */
  lemma LogoutOfNothing(cfg: Config, db: Db, c: Call)
    requires c.DoLogout?
    requires match c.cred
             case Access(s) => s !in db.sessions
             case Refresh(t) => t !in db.tokens
             case _ => true
    ensures Apply(cfg, db, c).1 == db
    ensures Apply(cfg, db, c).0 == if c.cred.Blank? || (c.cred.Access? && c.env.revokeWrite) then LoggedOut
                                   else if c.cred.Access? || !c.env.tokenRead then Failed(Database)
                                   else Failed(Unauthorized)
  {
  }

  /** A reported logout is final: the session is revoked, and every later refresh with any token of it fails. */
  lemma LogoutIsFinal(cfg: Config, dbs: seq<Db>, calls: seq<Call>, i: nat, j: nat, s: nat)
    requires Run(cfg, dbs, calls) && i < j < |calls| && LogsOutOf(dbs[i], calls[i], s)
    requires Apply(cfg, dbs[i], calls[i]).0 == LoggedOut && Presents(dbs[j], calls[j], s)
    ensures IsRevoked(dbs[i + 1], s) && IsRevoked(dbs[j + 1], s)
    ensures Apply(cfg, dbs[j], calls[j]).0.Failed?
  {
    ChainsAlways(cfg, dbs, calls, i);
    LogoutRevokes(cfg, dbs[i], calls[i], s);
    RevokedRefusesRefresh(cfg, dbs, calls, i + 1, j, s);
    RevokedForever(cfg, dbs, calls, i + 1, j + 1, s);
  }

  /** The session has neither expired nor been idle for too long. */
  predicate WithinLimits(cfg: Config, x: Session, now: int) {
    now <= x.expiresAt && now - x.lastSeenAt <= cfg.refreshIdle
  }

  /** Presenting a token of session `s` issues the next one exactly when the token is unconsumed and unexpired, the
      session active and within its limits, and every read and the transaction work. Only that session is touched. */
  lemma RefreshIssuedIff(cfg: Config, db: Db, c: Call, s: nat)
    requires ChainsOk(db) && Presents(db, c, s)
    ensures var (r, next) := Apply(cfg, db, c);
            var t, x, now := db.tokens[c.cred.token], db.sessions[s], c.env.now;
            && (r.Issued? <==>
                && c.env.tokenRead && c.env.sessionRead && c.env.userRead && c.env.commit
                && t.consumedAt.None? && now <= t.expiresAt && x.status == Active && WithinLimits(cfg, x, now))
            && (r.Issued? ==>
                && r == Issued(s, c.env.newToken, now + cfg.refreshTTL)
                && next.sessions == db.sessions[s := x.(lastSeenAt := now)]
                && next.tokens == db.tokens[c.cred.token := t.(consumedAt := Some(now))]
                                  [c.env.newToken := Token(s, Some(c.cred.token), None, now + cfg.refreshTTL, now)])
            && (!r.Issued? ==> r.Failed? && SameBut(db, next, s))
  {
    assert s in db.sessions;
  }

  /** A refused refresh revokes the session exactly when a consumed token was presented or the active session is over
      its limits, and the revocation is written. */
  lemma RefusalRevokesIff(cfg: Config, db: Db, c: Call, s: nat)
    requires ChainsOk(db) && Presents(db, c, s) && Apply(cfg, db, c).0.Failed? && !IsRevoked(db, s)
    ensures var t, x := db.tokens[c.cred.token], db.sessions[s];
            IsRevoked(Apply(cfg, db, c).1, s) <==>
            && c.env.tokenRead && c.env.revokeWrite
            && (t.consumedAt.Some?
                || (c.env.now <= t.expiresAt && c.env.sessionRead && !WithinLimits(cfg, x, c.env.now)))
  {
    assert s in db.sessions;
  }

  /** The reply says why a presented token is refused: the first reason in this order. */
  lemma RefusalSays(cfg: Config, db: Db, c: Call, s: nat)
    requires ChainsOk(db) && Presents(db, c, s) && Apply(cfg, db, c).0.Failed?
    ensures var t, x, now := db.tokens[c.cred.token], db.sessions[s], c.env.now;
            Apply(cfg, db, c).0.error
            == if !c.env.tokenRead then Database
               else if t.consumedAt.Some? then TokenReuse
               else if now > t.expiresAt then TokenExpired
               else if !c.env.sessionRead then Database
               else if x.status != Active then SessionRevoked
               else if !WithinLimits(cfg, x, now) then Unauthorized
               else Database
  {
    assert s in db.sessions;
  }

  /** A refresh that presents no token of any session issues nothing and changes nothing. */
  lemma UnknownTokenIssuesNothing(cfg: Config, db: Db, c: Call)
    requires c.DoRefresh? && forall s :: !Presents(db, c, s)
    ensures Apply(cfg, db, c).1 == db
    ensures Apply(cfg, db, c).0 == Failed(if c.cred.Blank? || c.env.tokenRead then Unauthorized else Database)
  {
    if c.cred.Refresh? && c.cred.token in db.tokens {
      assert Presents(db, c, db.tokens[c.cred.token].sessionID);
    }
  }

  /** A login issues a session of its user and that session's first token exactly when the transaction commits. */
  lemma LoginIssues(cfg: Config, db: Db, c: Call)
    requires c.DoLogin?
    ensures var (r, next) := Apply(cfg, db, c);
            var id, token, now := c.env.newSession, c.env.newToken, c.env.now;
            if c.env.commit then
              && r == Issued(id, token, now + cfg.refreshTTL)
              && next.sessions == db.sessions[id := Session(c.userID, Active, now, now + cfg.refreshTTL, now, None)]
              && next.tokens == db.tokens[token := Token(id, None, None, now + cfg.refreshTTL, now)]
            else r.Failed? && next == db
  {
  }

  /** An instance: the session of two tokens, whose revocation is lost when the first token is presented again. */
  function ReuseEnv(id: nat, revokeWrite: bool): Env {
    Env(0, id, id, true, true, true, revokeWrite, true)
  }

  function ReuseCalls(): seq<Call> {
    [DoLogin("user", ReuseEnv(0, true)), DoRefresh(Refresh(0), ReuseEnv(1, true)),
     DoRefresh(Refresh(0), ReuseEnv(2, false)), DoRefresh(Refresh(1), ReuseEnv(3, true))]
  }

  /** The reuse is reported, yet the second token is refreshed right after. */
  lemma ReuseInstance(cfg: Config) returns (dbs: seq<Db>)
    requires cfg.refreshTTL >= 0 && cfg.refreshIdle >= 0
    ensures Run(cfg, dbs, ReuseCalls())
    ensures Apply(cfg, dbs[2], ReuseCalls()[2]).0 == Failed(TokenReuse)
    ensures Apply(cfg, dbs[3], ReuseCalls()[3]).0 == Issued(0, 3, cfg.refreshTTL)
  {
    var calls := ReuseCalls();
    var empty := Db(map[], map[]);
    var first := Apply(cfg, empty, calls[0]).1;
    var second := Apply(cfg, first, calls[1]).1;
    var third := Apply(cfg, second, calls[2]).1;
    dbs := [empty, first, second, third, Apply(cfg, third, calls[3]).1];
    assert third == second;
  }

  // ----- Time bounds -----

  /** A session ends one refresh lifetime after its creation, and was last seen in between. */
  ghost predicate SessionTimes(cfg: Config, x: Session, clock: int) {
    x.createdAt <= x.lastSeenAt <= clock && x.expiresAt == x.createdAt + cfg.refreshTTL
  }

  /** A token outlives its session. */
  ghost predicate TokenTimes(db: Db, x: Token) {
    x.sessionID in db.sessions && db.sessions[x.sessionID].expiresAt <= x.expiresAt
  }

  ghost predicate TimesOk(cfg: Config, db: Db, clock: int) {
    && (forall s :: s in db.sessions ==> SessionTimes(cfg, db.sessions[s], clock))
    && (forall t :: t in db.tokens ==> TokenTimes(db, db.tokens[t]))
  }

  /** A step adds or changes at most one session, keeping its expiry. */
  lemma StepSessionTimes(cfg: Config, db: Db, c: Call, clock: int, s: nat)
    requires TimesOk(cfg, db, clock) && clock <= c.env.now && FreshIds(db, c)
    requires s in Apply(cfg, db, c).1.sessions
    ensures SessionTimes(cfg, Apply(cfg, db, c).1.sessions[s], c.env.now)
    ensures s in db.sessions ==> Apply(cfg, db, c).1.sessions[s].expiresAt == db.sessions[s].expiresAt
  {
    assert s in db.sessions ==> SessionTimes(cfg, db.sessions[s], clock);
  }

  lemma StepKeepsTimes(cfg: Config, db: Db, c: Call, clock: int)
    requires TimesOk(cfg, db, clock) && clock <= c.env.now && FreshIds(db, c)
    ensures TimesOk(cfg, Apply(cfg, db, c).1, c.env.now)
  {
    var db' := Apply(cfg, db, c).1;
    forall s | s in db'.sessions
      ensures SessionTimes(cfg, db'.sessions[s], c.env.now)
      ensures s in db.sessions ==> db'.sessions[s].expiresAt == db.sessions[s].expiresAt
    {
      StepSessionTimes(cfg, db, c, clock, s);
    }
    forall t | t in db'.tokens
      ensures TokenTimes(db', db'.tokens[t])
    {
      if t in db.tokens {
        assert TokenTimes(db, db.tokens[t]);
      } else {
        assert SessionTimes(cfg, db'.sessions[db'.tokens[t].sessionID], c.env.now);
      }
    }
  }

  lemma {:induction false} TimesAlways(cfg: Config, dbs: seq<Db>, calls: seq<Call>, i: nat)
    requires Run(cfg, dbs, calls) && 0 < i < |dbs|
    ensures TimesOk(cfg, dbs[i], calls[i - 1].env.now)
  {
    if i > 1 {
      TimesAlways(cfg, dbs, calls, i - 1);
      StepKeepsTimes(cfg, dbs[i - 1], calls[i - 1], calls[i - 2].env.now);
    } else {
      StepKeepsTimes(cfg, dbs[0], calls[0], calls[0].env.now);
    }
  }

  /** Call `i` of the run creates session `s` or successfully refreshes it. */
  ghost predicate Touches(cfg: Config, dbs: seq<Db>, calls: seq<Call>, i: nat, s: nat)
    requires Run(cfg, dbs, calls) && i < |calls|
  {
    var r := Apply(cfg, dbs[i], calls[i]).0;
    r.Issued? && r.sessionID == s
  }

  /** Between touches a session keeps its creation and last-seen times. */
  lemma {:induction false} LastSeenIsLastTouch(cfg: Config, dbs: seq<Db>, calls: seq<Call>, i: nat, j: nat, s: nat)
    requires Run(cfg, dbs, calls) && i < j < |dbs| && Touches(cfg, dbs, calls, i, s)
    requires forall k :: i < k < j ==> !Touches(cfg, dbs, calls, k, s)
    ensures s in dbs[j].sessions && dbs[j].sessions[s].lastSeenAt == calls[i].env.now
  {
    if i + 1 < j {
      LastSeenIsLastTouch(cfg, dbs, calls, i, j - 1, s);
      assert !Touches(cfg, dbs, calls, j - 1, s);
      assert calls[j - 1].DoLogin? ==> calls[j - 1].env.newSession != s;
    }
  }

  /** Consecutive touches of a session are at most the idle limit apart. */
  lemma RefreshesWithinIdle(cfg: Config, dbs: seq<Db>, calls: seq<Call>, i: nat, j: nat, s: nat)
    requires Run(cfg, dbs, calls) && i < j < |calls|
    requires Touches(cfg, dbs, calls, i, s) && Touches(cfg, dbs, calls, j, s)
    requires forall k :: i < k < j ==> !Touches(cfg, dbs, calls, k, s)
    ensures calls[j].DoRefresh?
    ensures calls[j].env.now - calls[i].env.now <= cfg.refreshIdle
  {
    LastSeenIsLastTouch(cfg, dbs, calls, i, j, s);
  }

  lemma {:induction false} CreationKept(cfg: Config, dbs: seq<Db>, calls: seq<Call>, i: nat, j: nat, s: nat)
    requires Run(cfg, dbs, calls) && i <= j < |dbs| && s in dbs[i].sessions
    ensures s in dbs[j].sessions && dbs[j].sessions[s].createdAt == dbs[i].sessions[s].createdAt
  {
    if i == j {
    } else {
      CreationKept(cfg, dbs, calls, i, j - 1, s);
    }
  }

  /** No refresh of a session succeeds later than its creation plus the refresh lifetime. */
  lemma RefreshesWithinLifetime(cfg: Config, dbs: seq<Db>, calls: seq<Call>, i: nat, j: nat, s: nat)
    requires Run(cfg, dbs, calls) && i < j < |calls|
    requires calls[i].DoLogin? && Touches(cfg, dbs, calls, i, s) && Touches(cfg, dbs, calls, j, s)
    ensures calls[j].env.now <= calls[i].env.now + cfg.refreshTTL
  {
    CreationKept(cfg, dbs, calls, i + 1, j, s);
    TimesAlways(cfg, dbs, calls, j);
  }

  /** A token never expires before its session, so the expired-token reply means the session is over too. */
  lemma ExpiredTokenMeansExpiredSession(cfg: Config, dbs: seq<Db>, calls: seq<Call>, i: nat, s: nat)
    requires Run(cfg, dbs, calls) && 0 < i < |calls| && Presents(dbs[i], calls[i], s)
    ensures s in dbs[i].sessions && dbs[i].sessions[s].expiresAt <= dbs[i].tokens[calls[i].cred.token].expiresAt
    ensures Apply(cfg, dbs[i], calls[i]).0 == Failed(TokenExpired) ==> calls[i].env.now > dbs[i].sessions[s].expiresAt
  {
    TimesAlways(cfg, dbs, calls, i);
  }
}
