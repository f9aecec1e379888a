/** `sqlSessionStore` and `serviceImpl` as objects: the table is a field that the queries change
    in place, and the service keeps the refresh goroutines it has started. Each service method
    is proved to take the steps of the sessions model. */
module SessionObjects {
  import opened GoTime
  import opened Wrappers
  import opened Sessions

  class SqlSessionStore {
    var sessions: map<Token, Row>

    constructor ()
      ensures sessions == map[]
    {
      sessions := map[];
    }

    /** The INSERT fails on a token that already has a row. */
    method CreateSession(token: Token, owner: UserId, now: Time) returns (ok: bool)
      modifies this
      ensures ok == (token !in old(sessions))
      ensures sessions == InsertRow(old(sessions), token, FreshRow(Issue(owner, now)))
      ensures ok ==> sessions
                     == old(sessions)[token := Row(owner, now + 86_400_000_000_000, now + 1_800_000_000_000)]
      ensures !ok ==> sessions == old(sessions)
    {
      if token in sessions {
        return false;
      }
      sessions := sessions[token := Row(owner, now + SESSION_DURATION, now + SESSION_IDLE_DURATION)];
      return true;
    }

    method GetSession(token: Token, now: Time) returns (owner: Option<UserId>)
      ensures owner.Some? <==>
                token in sessions && now < sessions[token].absoluteExpiry && now < sessions[token].idleExpiry
      ensures owner.Some? ==> owner.value == sessions[token].owner
    {
      if token in sessions {
        var row := sessions[token];
        if row.absoluteExpiry > now && row.idleExpiry > now {
          return Some(row.owner);
        }
      }
      return None;
    }

    /** An UPDATE: it never inserts, and it leaves the owner and the absolute expiry alone. */
    method UpdateIdle(token: Token, expiry: Time)
      modifies this
      ensures sessions.Keys == old(sessions.Keys)
      ensures sessions == UpdateIdleExpiry(old(sessions), token, expiry)
    {
      if token in sessions {
        sessions := sessions[token := sessions[token].(idleExpiry := expiry)];
      }
    }

    method DeleteSession(token: Token)
      modifies this
      ensures sessions == old(sessions) - {token}
    {
      sessions := sessions - {token};
    }

    /** One DELETE: exactly the rows with an expiry strictly in the past go. */
    method DeleteExpiredSessions(now: Time)
      modifies this
      ensures sessions.Keys == set token | token in old(sessions)
                && old(sessions)[token].absoluteExpiry >= now && old(sessions)[token].idleExpiry >= now
      ensures forall token :: token in sessions ==> sessions[token] == old(sessions)[token]
      ensures sessions == DeleteExpired(old(sessions), now)
    {
      sessions := map token | token in sessions
        && !(sessions[token].absoluteExpiry < now || sessions[token].idleExpiry < now) :: sessions[token];
    }
  }

  /** What the lookup of a user, and the check of the password, made of the credentials. */
  datatype Credentials = Principal(user: UserId) | WrongCredentials | LookupFailed

  datatype VerifyResult = Verified(user: UserId) | NotVerified | VerifyFailed

  datatype LoginResult = LoggedIn(token: Token) | Unauthorized | Failed

  class Service {
    const store: SqlSessionStore
    var now: Time
    var pending: set<Refresh>
    ghost var creating: map<Token, Issue>
    ghost var issued: map<Token, Issue>
    var verifications: seq<Verification>   // history; numbers the refreshes

    ghost function Value(): State
      reads this, store
    {
      State(now, store.sessions, creating, pending, issued, verifications)
    }

    constructor (now: Time)
      ensures Value() == Empty(now) && fresh(store)
    {
      this.store := new SqlSessionStore();
      this.now, pending, creating, issued, verifications := now, {}, map[], map[], [];
    }

    /** `token` is the fresh random text, and `inserted` says whether the database accepted the
        INSERT. */
    method Login(credentials: Credentials, token: Token, inserted: bool) returns (result: LoginResult)
      requires token != "" && token !in issued && token !in store.sessions && token !in creating
      modifies this, store
      ensures !credentials.Principal? ==>
                Value() == old(Value()) && result == if credentials.LookupFailed? then Failed else Unauthorized
      ensures credentials.Principal? ==>
                var end := if inserted then Insert(token) else FailCreate(token);
                var run := [BeginCreate(token, credentials.user), end];
                && CanRun(old(Value()), run) && Value() == AfterRun(old(Value()), run)
                && store.sessions
                     == (if inserted then old(store.sessions)[token := FreshRow(Issue(credentials.user, now))]
                         else old(store.sessions))
                && result == if inserted then LoggedIn(token) else Failed
    {
      if credentials.LookupFailed? {
        return Failed;
      }
      if credentials.WrongCredentials? {
        return Unauthorized;
      }
      ghost var s := Value();
      var begin := BeginCreate(token, credentials.user);
      var end := if inserted then Insert(token) else FailCreate(token);
      ghost var t := Apply(s, begin);
      issued := issued[token := Issue(credentials.user, now)];
      assert t.creating - {token} == s.creating;
      RunFrom(t, end, []);
      RunFrom(s, begin, [end] + []);
      assert [begin] + ([end] + []) == [begin, end];
      if !inserted {
        return Failed;
      }
      var ok := store.CreateSession(token, credentials.user, now);
      return LoggedIn(token);
    }

    /** A successful verification starts a refresh that outlives it; a query that the database
        does not answer gives an error and starts none. */
    method VerifySession(token: Token, answered: bool) returns (result: VerifyResult)
      modifies this`pending, this`verifications
      ensures !answered ==> result == VerifyFailed && Value() == old(Value())
      ensures answered ==>
                && Value() == Apply(old(Value()), Action.VerifySession(token))
                && pending == old(pending)
                              + (if result.Verified? then {Spawned(|old(verifications)|, token, now)} else {})
                && result == match Lookup(store.sessions, token, now)
                             case Some(user) => Verified(user)
                             case None => NotVerified
    {
      if !answered {
        return VerifyFailed;
      }
      var principal := store.GetSession(token, now);
      if principal.Some? {
        pending := pending + {Spawned(|verifications|, token, now)};
      }
      verifications := verifications + [Verification(token, now, principal)];
      result := if principal.Some? then Verified(principal.value) else NotVerified;
    }

    /** The goroutine reads the clock in RefreshSession. */
    method RefreshReads(r: Refresh)
      requires r in pending && r.Spawned?
      modifies this`pending
      ensures Value() == Apply(old(Value()), ComputeExpiry(r))
      ensures pending == old(pending) - {r} + {Computed(r.id, r.token, r.verifiedAt, now + 1_800_000_000_000)}
    {
      var computed := Computed(r.id, r.token, r.verifiedAt, now + SESSION_IDLE_DURATION);
      pending := pending - {r} + {computed};
    }

    /** The goroutine's UPDATE, at whatever later time, whether the token still has a row or not. */
    method RefreshWrites(r: Refresh)
      requires r in pending && r.Computed?
      modifies this`pending, store
      ensures Value() == Apply(old(Value()), WriteExpiry(r))
      ensures pending == old(pending) - {r}
      ensures store.sessions.Keys == old(store.sessions.Keys)
      ensures forall token :: token in store.sessions ==>
                store.sessions[token] == if token == r.token then old(store.sessions)[token].(idleExpiry := r.expiry)
                                         else old(store.sessions)[token]
    {
      pending := pending - {r};
      store.UpdateIdle(r.token, r.expiry);
    }

    method Logout(token: Token)
      modifies store
      ensures Value() == Apply(old(Value()), Action.Logout(token))
      ensures store.sessions == if token == "" then old(store.sessions) else old(store.sessions) - {token}
    {
      if token == "" {
        return;
      }
      store.DeleteSession(token);
    }

    method Cleanup()
      modifies store
      ensures Value() == Apply(old(Value()), Action.Cleanup)
      ensures store.sessions.Keys == set token | token in old(store.sessions)
                && old(store.sessions)[token].absoluteExpiry >= now && old(store.sessions)[token].idleExpiry >= now
    {
      store.DeleteExpiredSessions(now);
    }
  }
}
