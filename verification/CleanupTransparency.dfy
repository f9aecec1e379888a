/** The hourly cleanup does not change what VerifySession answers. A store that deletes expired
    rows at arbitrary points is simulated by one that never does, unless a refresh arrives so
    late that it brings an expired row back to life. */
module CleanupTransparency {
  import opened GoTime
  import opened Wrappers
  import opened Sessions
  import opened SessionTheorems
  import opened IdleExpiry

  /** The same run with no cleanup. */
  function WithoutCleanup(run: seq<Action>): seq<Action> {
    if run == [] then []
    else (if run[0] == Cleanup then [] else [run[0]]) + WithoutCleanup(run[1..])
  }

  /** Writing this refresh turns an expired row into one that is not. */
  predicate Revives(s: State, a: Action) {
    a.WriteExpiry? && a.refresh.Computed? && a.refresh.token in s.sessions
    && Expired(s.sessions[a.refresh.token], s.now)
    && !Expired(s.sessions[a.refresh.token].(idleExpiry := a.refresh.expiry), s.now)
  }

  /** In the store that never cleans up, no refresh of the run revives a row. */
  predicate NoRevival(kept: State, run: seq<Action>)
    decreases |run|
  {
    run != [] ==>
      if run[0] == Cleanup then NoRevival(kept, run[1..])
      else Enabled(kept, run[0]) ==> !Revives(kept, run[0]) && NoRevival(Apply(kept, run[0]), run[1..])
  }

  /** The tables: `kept` has the rows of `cleaned`, and others only if they have expired. */
  ghost predicate Covers(cleaned: map<Token, Row>, kept: map<Token, Row>, now: Time) {
    && (forall token :: token in cleaned ==> token in kept && kept[token] == cleaned[token])
    && (forall token :: token in kept && token !in cleaned ==> Expired(kept[token], now))
  }

  /** The simulation: all but the tables is the same. */
  ghost predicate Simulates(cleaned: State, kept: State) {
    && cleaned == kept.(sessions := cleaned.sessions)
    && Covers(cleaned.sessions, kept.sessions, kept.now)
  }

  lemma CoversLookup(cleaned: map<Token, Row>, kept: map<Token, Row>, now: Time, token: Token)
    requires Covers(cleaned, kept, now)
    ensures Lookup(cleaned, token, now) == Lookup(kept, token, now)
  {}

  lemma CoversCleanup(cleaned: map<Token, Row>, kept: map<Token, Row>, now: Time)
    requires Covers(cleaned, kept, now)
    ensures Covers(DeleteExpired(cleaned, now), kept, now)
  {}

  lemma CoversLater(cleaned: map<Token, Row>, kept: map<Token, Row>, now: Time, later: Time)
    requires Covers(cleaned, kept, now) && now <= later
    ensures Covers(cleaned, kept, later)
  {}

  lemma CoversInsert(cleaned: map<Token, Row>, kept: map<Token, Row>, now: Time, token: Token, row: Row)
    requires Covers(cleaned, kept, now) && token !in kept
    ensures Covers(InsertRow(cleaned, token, row), InsertRow(kept, token, row), now)
  {}

  lemma CoversLogout(cleaned: map<Token, Row>, kept: map<Token, Row>, now: Time, token: Token)
    requires Covers(cleaned, kept, now)
    ensures Covers(cleaned - {token}, kept - {token}, now)
  {}

  lemma CoversWrite(cleaned: map<Token, Row>, kept: map<Token, Row>, now: Time, token: Token, expiry: Time)
    requires Covers(cleaned, kept, now)
    requires token in kept && Expired(kept[token], now) ==> Expired(kept[token].(idleExpiry := expiry), now)
    ensures Covers(UpdateIdleExpiry(cleaned, token, expiry), UpdateIdleExpiry(kept, token, expiry), now)
  {}

  lemma StepSimulates(cleaned: State, kept: State, a: Action)
    requires Simulates(cleaned, kept) && RowsOwned(kept)
    requires a != Cleanup && Enabled(cleaned, a) && Enabled(kept, a) && !Revives(kept, a)
    ensures Simulates(Apply(cleaned, a), Apply(kept, a))
  {
    var c, k, now := cleaned.sessions, kept.sessions, kept.now;
    match a
    case Tick(t) => CoversLater(c, k, now, t);
    case Insert(token) => CoversInsert(c, k, now, token, FreshRow(kept.creating[token]));
    case Logout(token) => CoversLogout(c, k, now, token);
    case WriteExpiry(r) => CoversWrite(c, k, now, r.token, r.expiry);
    case VerifySession(token) => CoversLookup(c, k, now, token);
    case _ =>
  }

  lemma {:induction false} RunSimulates(cleaned: State, kept: State, run: seq<Action>)
    requires Simulates(cleaned, kept) && RowsOwned(kept)
    requires CanRun(cleaned, run) && NoRevival(kept, run)
    ensures CanRun(kept, WithoutCleanup(run))
    ensures Simulates(AfterRun(cleaned, run), AfterRun(kept, WithoutCleanup(run)))
    decreases |run|
  {
    if run != [] {
      var a, rest := run[0], WithoutCleanup(run[1..]);
      if a == Cleanup {
        CoversCleanup(cleaned.sessions, kept.sessions, kept.now);
        assert WithoutCleanup(run) == rest;
        RunSimulates(Apply(cleaned, a), kept, run[1..]);
      } else {
        assert WithoutCleanup(run) == [a] + rest && ([a] + rest)[1..] == rest;
        SameActions(cleaned, kept, a);
        RowsOwnedKept(kept, a);
        StepSimulates(cleaned, kept, a);
        RunSimulates(Apply(cleaned, a), Apply(kept, a), run[1..]);
      }
    }
  }

  lemma SameActions(cleaned: State, kept: State, a: Action)
    requires Simulates(cleaned, kept) && Enabled(cleaned, a)
    ensures Enabled(kept, a)
  {}

  /** Cleanup transparency. Take any run, with cleanups at any points, in which no refresh
      would revive an expired row. The same run without the cleanups is possible, and every
      verification gets the same answer in both. */
  lemma CleanupIsTransparent(now: Time, run: seq<Action>)
    requires CanRun(Empty(now), run) && NoRevival(Empty(now), run)
    ensures CanRun(Empty(now), WithoutCleanup(run))
    ensures AfterRun(Empty(now), WithoutCleanup(run)).verifications == AfterRun(Empty(now), run).verifications
  {
    RunSimulates(Empty(now), Empty(now), run);
  }

  /** The two answers after a late write, with and without a cleanup just before it. */
  lemma LateWriteAnswers(sessions: map<Token, Row>, token: Token, expiry: Time, now: Time)
    ensures Lookup(UpdateIdleExpiry(DeleteExpired(sessions, now), token, expiry), token, now)
         != Lookup(UpdateIdleExpiry(sessions, token, expiry), token, now)
       <==> token in sessions && Expired(sessions[token], now)
            && Live(sessions[token].(idleExpiry := expiry), now)
  {}

  /** A pending refresh is written, and its token verified at once. */
  function LateWrite(r: Refresh): seq<Action> { [WriteExpiry(r), VerifySession(r.token)] }

  function AnswerAfterWrite(sessions: map<Token, Row>, r: Refresh, now: Time): Option<UserId>
    requires r.Computed?
  {
    Lookup(UpdateIdleExpiry(sessions, r.token, r.expiry), r.token, now)
  }

  lemma WriteThenVerify(s: State, r: Refresh)
    requires r in s.pending && r.Computed?
    ensures CanRun(s, LateWrite(r)) && WithoutCleanup(LateWrite(r)) == LateWrite(r)
    ensures AfterRun(s, LateWrite(r)).verifications
         == s.verifications + [Verification(r.token, s.now, AnswerAfterWrite(s.sessions, r, s.now))]
  {
    var verify := VerifySession(r.token);
    RunFrom(Apply(s, WriteExpiry(r)), verify, []);
    RunFrom(s, WriteExpiry(r), [verify] + []);
    assert LateWrite(r) == [WriteExpiry(r)] + ([verify] + []);
    assert LateWrite(r)[1..] == [verify] && [verify][1..] == [];
    assert WithoutCleanup([verify]) == [verify];
  }

  lemma CleanupThenWrite(s: State, r: Refresh)
    requires r in s.pending && r.Computed?
    ensures var run := [Cleanup] + LateWrite(r);
            && CanRun(s, run) && WithoutCleanup(run) == LateWrite(r)
            && AfterRun(s, run).verifications
                 == s.verifications
                    + [Verification(r.token, s.now, AnswerAfterWrite(DeleteExpired(s.sessions, s.now), r, s.now))]
  {
    WriteThenVerify(s, r);
    WriteThenVerify(Apply(s, Cleanup), r);
    RunFrom(s, Cleanup, LateWrite(r));
    assert ([Cleanup] + LateWrite(r))[1..] == LateWrite(r);
  }

  /** The condition is exact. With a computed refresh pending, a cleanup just before the write
      changes the answer of a verification just after it exactly when the write turns an
      expired row into a live one. */
  lemma CleanupShowsIff(s: State, r: Refresh)
    requires r in s.pending && r.Computed?
    ensures var run := [Cleanup] + LateWrite(r);
            && CanRun(s, run) && CanRun(s, WithoutCleanup(run))
            && (AfterRun(s, run).verifications != AfterRun(s, WithoutCleanup(run)).verifications
                <==> r.token in s.sessions && Expired(s.sessions[r.token], s.now)
                     && Live(s.sessions[r.token].(idleExpiry := r.expiry), s.now))
  {
    WriteThenVerify(s, r);
    CleanupThenWrite(s, r);
    LateWriteAnswers(s.sessions, r.token, r.expiry, s.now);
    hide CanRun, AfterRun, WithoutCleanup, LateWrite, Lookup, UpdateIdleExpiry, DeleteExpired, Expired, Live;
    var v, v' := Verification(r.token, s.now, AnswerAfterWrite(s.sessions, r, s.now)),
                 Verification(r.token, s.now, AnswerAfterWrite(DeleteExpired(s.sessions, s.now), r, s.now));
    assert (s.verifications + [v])[|s.verifications|] == v && (s.verifications + [v'])[|s.verifications|] == v';
  }

  lemma LateAnswers(row: Row, r: Refresh, t: Time)
    requires r.Computed? && row.idleExpiry < t < r.expiry && t < row.absoluteExpiry
    ensures AnswerAfterWrite(map[r.token := row], r, t) == Some(row.owner)
    ensures AnswerAfterWrite(DeleteExpired(map[r.token := row], t), r, t) == None
  {}

  /** And the condition is met: from an empty table, a refresh that computed its expiry in time
      and is written after the row has expired, at any instant in between, makes the next
      answer depend on whether a cleanup came first. */
  lemma CleanupCanShow(now: Time, token: Token, owner: UserId, gap: int, t: Time)
    returns (run: seq<Action>, r: Refresh)
    requires token != "" && 0 < gap < SESSION_IDLE_DURATION
    requires now + SESSION_IDLE_DURATION < t < now + gap + SESSION_IDLE_DURATION
    ensures r == Computed(1, token, now + gap, now + gap + SESSION_IDLE_DURATION)
    ensures CanRun(Empty(now), run) && r in AfterRun(Empty(now), run).pending
    ensures var s := AfterRun(Empty(now), run);
            var cleaned, kept := [Cleanup] + LateWrite(r), LateWrite(r);
            && CanRun(s, cleaned) && CanRun(s, kept) && WithoutCleanup(cleaned) == kept
            && AfterRun(s, cleaned).verifications == s.verifications + [Verification(token, t, None)]
            && AfterRun(s, kept).verifications == s.verifications + [Verification(token, t, Some(owner))]
  {
    r := Computed(1, token, now + gap, now + gap + SESSION_IDLE_DURATION);
    run := TwoRefreshesPending(now, token, owner, gap);
    RunAndThen(Empty(now), run, Tick(t));
    run := run + [Tick(t)];
    var s := AfterRun(Empty(now), run);
    assert s.now == t && s.sessions == map[token := FreshRow(Issue(owner, now))] && r in s.pending;
    hide CanRun, AfterRun, Apply;
    WriteThenVerify(s, r);
    CleanupThenWrite(s, r);
    LateAnswers(FreshRow(Issue(owner, now)), r, t);
  }
}
