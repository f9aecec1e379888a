/** What decides whether a token verifies: the clock reading that its idle expiry counts from.
    Documentation promises a refresh on every verification, and so 30 minutes from each; the
    detached refreshes keep that promise exactly while the reading last written is recent. */
module IdleExpiry {
  import opened GoTime
  import opened Wrappers
  import opened Sessions
  import opened SessionTraces

  // ---- When a token verifies ----

  /** Over every run: the table has the token's row exactly while it has been neither logged out
      nor cleaned, and the row is the one issued, its idle expiry 30 minutes after the reading
      last written. So the token verifies, as its owner, exactly while that reading is less than
      30 minutes old and the token less than 24 hours. */
  lemma VerifiesIff(now: Time, run: seq<Action>, token: Token)
    requires CanRun(Empty(now), run)
    ensures var s, fate, issue := AfterRun(Empty(now), run), FateIn(now, run, token), IssuedIn(now, run, token);
            && s.now == Clock(now, run)
            && (token in s.sessions <==> fate.Kept?)
            && (fate.Kept? ==>
                  && issue.Some?
                  && s.sessions[token] == Row(issue.value.owner, issue.value.at + SESSION_DURATION,
                                              fate.base + SESSION_IDLE_DURATION))
            && (Lookup(s.sessions, token, s.now).Some? <==>
                  fate.Kept? && s.now < issue.value.at + SESSION_DURATION
                  && fate.base > s.now - SESSION_IDLE_DURATION)
            && (Lookup(s.sessions, token, s.now).Some? ==>
                  Lookup(s.sessions, token, s.now) == Some(issue.value.owner))
  {
    StateIsHistory(now, run);
    assert RowAgrees(AfterRun(Empty(now), run), now, run, token);
    hide FateIn, IssuedIn, CanRun, AfterRun, RefreshesAgree;
  }

  /** The exact condition of "30 minutes from each use". A token that has verified before, however
      recently, is refused exactly when it is 24 hours old, or was logged out, or the reading
      last written is 30 minutes old, or was more than that when a cleanup came. */
  lemma RefusedIff(now: Time, run: seq<Action>, k: nat)
    requires CanRun(Empty(now), run) && k < |AfterRun(Empty(now), run).verifications|
    requires AfterRun(Empty(now), run).verifications[k].answer.Some?
    ensures var s := AfterRun(Empty(now), run);
            var token := s.verifications[k].token;
            var fate, issue := FateIn(now, run, token), IssuedIn(now, run, token);
            && issue.Some?
            && (Lookup(s.sessions, token, s.now).None? <==>
                  || s.now >= issue.value.at + SESSION_DURATION
                  || fate.LoggedOut?
                  || (fate.Kept? && fate.base <= s.now - SESSION_IDLE_DURATION)
                  || (fate.Cleaned? && fate.base < fate.at - SESSION_IDLE_DURATION))
  {
    var s := AfterRun(Empty(now), run);
    var token := s.verifications[k].token;
    StateIsHistory(now, run);
    VerifiesIff(now, run, token);
    assert RowAgrees(s, now, run, token);
    VerifiedHadRow(now, run, k);
    hide FateIn, IssuedIn, CanRun, AfterRun, RefreshesAgree;
  }

  lemma {:induction false} VerifiedHadRow(now: Time, run: seq<Action>, k: nat)
    requires k < |VerificationsIn(now, run)| && VerificationsIn(now, run)[k].answer.Some?
    ensures !FateIn(now, run, VerificationsIn(now, run)[k].token).NoRow?
  {
    hide Clock, Asked, ReadAt, IssuedIn;
    var before := run[..|run| - 1];
    if k < |VerificationsIn(now, before)| {
      VerifiedHadRow(now, before, k);
    }
  }

  // ---- Runs in which a session in use is refused ----

  ghost predicate Reaches(now: Time, run: seq<Action>, s: State) {
    CanRun(Empty(now), run) && AfterRun(Empty(now), run) == s
  }

  lemma Onward(now: Time, run: seq<Action>, s: State, a: Action)
    requires Reaches(now, run, s) && Enabled(s, a)
    ensures Reaches(now, run + [a], Apply(s, a))
  {
    RunAndThen(Empty(now), run, a);
  }

  /** The reading that a row counts from. */
  lemma BaseIs(now: Time, run: seq<Action>, s: State, token: Token, base: Time)
    requires Reaches(now, run, s) && token in s.sessions
    requires s.sessions[token].idleExpiry == base + SESSION_IDLE_DURATION
    ensures FateIn(now, run, token) == Kept(base)
  {
    VerifiesIff(now, run, token);
    hide FateIn, IssuedIn, CanRun, AfterRun;
  }

  /** The state at instant t of a table whose only login was the token's, at `now`. */
  function OneSession(now: Time, token: Token, owner: UserId, t: Time, pending: set<Refresh>,
                      verifications: seq<Verification>): State
  {
    var issue := Issue(owner, now);
    State(t, map[token := FreshRow(issue)], map[], pending, map[token := issue], verifications)
  }

  lemma NewSession(now: Time, token: Token, owner: UserId) returns (run: seq<Action>)
    requires token != ""
    ensures run == [BeginCreate(token, owner), Insert(token)]
    ensures Reaches(now, run, OneSession(now, token, owner, now, {}, []))
  {
    var s, begin, insert := Empty(now), BeginCreate(token, owner), Insert(token);
    var s' := s.(creating := map[token := Issue(owner, now)], issued := map[token := Issue(owner, now)]);
    assert Apply(s, begin) == s';
    assert s'.creating - {token} == map[];
    assert Apply(s', insert) == OneSession(now, token, owner, now, {}, []);
    assert Reaches(now, [], s);
    hide Apply, Reaches;
    Onward(now, [], s, begin);
    Onward(now, [] + [begin], s', insert);
    run := [] + [begin] + [insert];
  }

  /** A verification that succeeds and whose refresh reads the clock at once. */
  lemma VerifyAndCompute(now: Time, run: seq<Action>, token: Token, s: State) returns (longer: seq<Action>)
    requires Reaches(now, run, s) && Lookup(s.sessions, token, s.now).Some?
    requires Spawned(|s.verifications|, token, s.now) !in s.pending
    ensures var r := Computed(|s.verifications|, token, s.now, s.now + SESSION_IDLE_DURATION);
            var v := Verification(token, s.now, Lookup(s.sessions, token, s.now));
            var t := s.(pending := s.pending + {r}, verifications := s.verifications + [v]);
            Reaches(now, longer, t)
  {
    hide Reaches, Lookup;
    var spawned := Spawned(|s.verifications|, token, s.now);
    var verify, compute := VerifySession(token), ComputeExpiry(spawned);
    Onward(now, run, s, verify);
    Onward(now, run + [verify], Apply(s, verify), compute);
    longer := run + [verify] + [compute];
    assert s.pending + {spawned} - {spawned} == s.pending;
  }

  /** Two verifications of one session, `gap` apart, have computed their refreshes. */
  function TwoPending(now: Time, token: Token, owner: UserId, gap: int): State {
    OneSession(now, token, owner, now + gap,
               {Computed(0, token, now, now + SESSION_IDLE_DURATION)}
               + {Computed(1, token, now + gap, now + gap + SESSION_IDLE_DURATION)},
               [Verification(token, now, Some(owner)), Verification(token, now + gap, Some(owner))])
  }

  lemma TwoRefreshesPending(now: Time, token: Token, owner: UserId, gap: int) returns (run: seq<Action>)
    requires token != "" && 0 < gap < SESSION_IDLE_DURATION
    ensures Reaches(now, run, TwoPending(now, token, owner, gap))
  {
    hide Reaches;
    var r := Computed(0, token, now, now + SESSION_IDLE_DURATION);
    var v, v' := Verification(token, now, Some(owner)), Verification(token, now + gap, Some(owner));
    run := NewSession(now, token, owner);
    var s := OneSession(now, token, owner, now, {}, []);
    run := VerifyAndCompute(now, run, token, s);
    assert {} + {r} == {r} && [] + [v] == [v] && [v] + [v'] == [v, v'];
    s := OneSession(now, token, owner, now, {r}, [v]);
    Onward(now, run, s, Tick(now + gap));
    run := run + [Tick(now + gap)];
    run := VerifyAndCompute(now, run, token, s.(now := now + gap));
  }

  /** An older refresh can win. From an empty table, whatever the two verifications' distance:
      the newer refresh is written first and puts the idle expiry 30 minutes after the second
      verification, the older one takes it back by that distance, and the session is refused
      at an instant that is less than 30 minutes after a verification that succeeded. */
  lemma OlderRefreshCanWin(now: Time, token: Token, owner: UserId, gap: int)
    returns (run: seq<Action>, older: Action, refused: State)
    requires token != "" && 0 < gap < SESSION_IDLE_DURATION
    ensures CanRun(Empty(now), run) && older.WriteExpiry? && Enabled(AfterRun(Empty(now), run), older)
    ensures var s := AfterRun(Empty(now), run);
            && token in s.sessions && token in Apply(s, older).sessions
            && s.sessions[token].idleExpiry == now + gap + SESSION_IDLE_DURATION
            && Apply(s, older).sessions[token].idleExpiry == s.sessions[token].idleExpiry - gap
    ensures var whole := run + [older] + [Tick(now + SESSION_IDLE_DURATION)];
            Reaches(now, whole, refused) && FateIn(now, whole, token) == Kept(now)
    ensures refused.now == now + SESSION_IDLE_DURATION && |refused.verifications| == 2
    ensures refused.verifications[1] == Verification(token, now + gap, Some(owner))
    ensures Lookup(refused.sessions, token, refused.now).None?
  {
    var expiry := now + SESSION_IDLE_DURATION;
    var newer := WriteExpiry(Computed(1, token, now + gap, expiry + gap));
    older := WriteExpiry(Computed(0, token, now, expiry));
    run := TwoRefreshesPending(now, token, owner, gap);
    var s := TwoPending(now, token, owner, gap);
    var s' := Apply(s, newer);
    var s'' := Apply(s', older);
    refused := Apply(s'', Tick(expiry));
    Onward(now, run, s, newer);
    run := run + [newer];
    Onward(now, run, s', older);
    Onward(now, run + [older], s'', Tick(expiry));
    hide FateIn, IssuedIn, CanRun, AfterRun;
    BaseIs(now, run + [older] + [Tick(expiry)], refused, token, now);
    VerifiesIff(now, run + [older] + [Tick(expiry)], token);
  }

  /** Nor does it take an older refresh. A session that was verified `gap` after its creation is
      refused 30 minutes after its creation when no refresh has been written by then, because
      the goroutine is late or the write failed. */
  lemma UnwrittenRefreshEndsSession(now: Time, token: Token, owner: UserId, gap: int)
    returns (run: seq<Action>, refused: State)
    requires token != "" && 0 < gap < SESSION_IDLE_DURATION
    ensures run == [BeginCreate(token, owner), Insert(token), Tick(now + gap), VerifySession(token),
                    Tick(now + SESSION_IDLE_DURATION)]
    ensures Reaches(now, run, refused) && FateIn(now, run, token) == Kept(now)
    ensures refused.now == now + SESSION_IDLE_DURATION
    ensures refused.verifications == [Verification(token, now + gap, Some(owner))]
    ensures Lookup(refused.sessions, token, refused.now).None?
  {
    hide FateIn, IssuedIn, CanRun, AfterRun;
    var expiry, verify := now + SESSION_IDLE_DURATION, VerifySession(token);
    run := NewSession(now, token, owner);
    var s := OneSession(now, token, owner, now, {}, []);
    Onward(now, run, s, Tick(now + gap));
    run := run + [Tick(now + gap)];
    s := s.(now := now + gap);
    Onward(now, run, s, verify);
    run := run + [verify];
    s := OneSession(now, token, owner, now + gap, {Spawned(0, token, now + gap)},
                    [Verification(token, now + gap, Some(owner))]);
    Onward(now, run, s, Tick(expiry));
    run := run + [Tick(expiry)];
    refused := s.(now := expiry);
    BaseIs(now, run, refused, token, now);
    VerifiesIff(now, run, token);
  }
}
