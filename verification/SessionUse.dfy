/** That a session in use stays usable. Refreshes are detached, so a use gives its 30 minutes
    only once its refresh has been written; here every refresh of the token is written within
    `w` of its verification, and none is lost. */
module SessionUse {
  import opened GoTime
  import opened Wrappers
  import opened Sessions
  import opened SessionTheorems

  // ---- What is asked of the refreshes ----

  /** No refresh of the token has been waiting for more than `w`. */
  predicate Punctual(s: State, token: Token, w: nat) {
    forall r :: r in s.pending && r.token == token ==> s.now <= r.verifiedAt + w
  }

  predicate Loses(a: Action, token: Token) {
    a.LoseRefresh? && a.refresh.token == token
  }

  predicate PunctualRun(s: State, run: seq<Action>, token: Token, w: nat)
    requires CanRun(s, run)
    decreases |run|
  {
    && Punctual(s, token, w)
    && (run != [] ==> !Loses(run[0], token) && PunctualRun(Apply(s, run[0]), run[1..], token, w))
  }

  /** Of the token's refreshes the one with the earliest verification is written first. */
  predicate OldestFirst(s: State, a: Action, token: Token) {
    a.WriteExpiry? && a.refresh.token == token ==>
      forall r :: r in s.pending && r.token == token ==> a.refresh.verifiedAt <= r.verifiedAt
  }

  predicate OldestFirstRun(s: State, run: seq<Action>, token: Token)
    requires CanRun(s, run)
    decreases |run|
  {
    run != [] ==> OldestFirst(s, run[0], token) && OldestFirstRun(Apply(s, run[0]), run[1..], token)
  }

  // ---- History is in the past ----

  ghost predicate RefreshesPast(s: State) {
    forall r :: r in s.pending ==>
      && r.verifiedAt <= s.now && (r.Computed? ==> r.verifiedAt + SESSION_IDLE_DURATION <= r.expiry)
      && r.token in s.issued && r.token !in s.creating
      && s.issued[r.token].at <= r.verifiedAt
  }

  ghost predicate VerificationsPast(s: State) {
    && (forall x :: x in s.issued ==> s.issued[x].at <= s.now)
    && (forall k {:trigger s.verifications[k]} :: 0 <= k < |s.verifications| ==>
          && s.verifications[k].at <= s.now
          && (s.verifications[k].answer.Some? ==>
                s.verifications[k].token in s.issued && s.verifications[k].token !in s.creating))
  }

  ghost predicate Past(s: State) {
    RowsOwned(s) && RefreshesPast(s) && VerificationsPast(s)
  }

  lemma PastKept(s: State, a: Action)
    requires Past(s) && Enabled(s, a)
    ensures Past(Apply(s, a))
  {
    RowsOwnedKept(s, a);
    RefreshesPastKept(s, a);
    VerificationsPastKept(s, a);
    hide RowsOwned, RefreshesPast, VerificationsPast;
  }

  lemma RefreshesPastKept(s: State, a: Action)
    requires Past(s) && Enabled(s, a)
    ensures RefreshesPast(Apply(s, a))
  {}

  lemma VerificationsPastKept(s: State, a: Action)
    requires Past(s) && Enabled(s, a)
    ensures VerificationsPast(Apply(s, a))
  {}

  // ---- A recent use suffices ----

  /** Without an order an older refresh may take back as much as `w`. */
  function Slack(ordered: bool, w: nat): nat { if ordered then 0 else w }

  ghost predicate StillPending(s: State, token: Token, u: Time) {
    exists r :: r in s.pending && r.token == token && r.verifiedAt == u
  }

  /** The refresh of the use at u is still to come, or the row's expiry reflects that use. */
  ghost predicate Served(s: State, token: Token, u: Time, ordered: bool, w: nat)
    requires token in s.sessions
  {
    || StillPending(s, token, u)
    || (s.sessions[token].idleExpiry >= u + SESSION_IDLE_DURATION - Slack(ordered, w)
        && (ordered ==> forall r :: r in s.pending && r.token == token ==> u <= r.verifiedAt))
  }

  ghost predicate AllServed(s: State, token: Token, ordered: bool, w: nat) {
    token in s.sessions ==>
      forall u :: UsedAt(s, token, u, |s.verifications|) ==> Served(s, token, u, ordered, w)
  }

  /** A refresh stays until it is written, and a new one is of a verification made now. */
  lemma PendingMoves(s: State, a: Action, token: Token)
    requires Enabled(s, a) && !Loses(a, token)
    ensures forall u {:trigger StillPending(s, token, u)} :: StillPending(s, token, u) ==>
              || StillPending(Apply(s, a), token, u)
              || (a.WriteExpiry? && a.refresh.token == token && a.refresh.verifiedAt == u)
    ensures forall r :: r in Apply(s, a).pending && r.token == token ==>
              StillPending(s, token, r.verifiedAt) || r.verifiedAt == s.now
  {
    hide Lookup, InsertRow, DeleteExpired, UpdateIdleExpiry;
    var t := Apply(s, a);
    forall r | r in s.pending && r.token == token && a != WriteExpiry(r)
      ensures StillPending(t, token, r.verifiedAt)
    {
      if a == ComputeExpiry(r) {
        assert Computed(r.id, r.token, r.verifiedAt, s.now + SESSION_IDLE_DURATION) in t.pending;
      } else {
        assert r in t.pending;
      }
    }
  }

  lemma ServedKept(s: State, a: Action, token: Token, u: Time, ordered: bool, w: nat)
    requires Past(s) && Enabled(s, a) && token in s.sessions && token in Apply(s, a).sessions
    requires u <= s.now && Served(s, token, u, ordered, w)
    requires Punctual(s, token, w) && !Loses(a, token) && (ordered ==> OldestFirst(s, a, token))
    ensures Served(Apply(s, a), token, u, ordered, w)
  {
    RowMoves(s, a, token);
    PendingMoves(s, a, token);
    hide Apply;
  }

  lemma AllServedKept(s: State, a: Action, token: Token, ordered: bool, w: nat)
    requires Past(s) && AllServed(s, token, ordered, w) && Enabled(s, a)
    requires Punctual(s, token, w) && !Loses(a, token) && (ordered ==> OldestFirst(s, a, token))
    ensures AllServed(Apply(s, a), token, ordered, w)
  {
    var t := Apply(s, a);
    if token in t.sessions {
      forall u | UsedAt(t, token, u, |t.verifications|)
        ensures Served(t, token, u, ordered, w)
      {
        if token !in s.sessions {
        } else if UsedAt(s, token, u, |s.verifications|) {
          ServedKept(s, a, token, u, ordered, w);
        } else {
          assert Spawned(|s.verifications|, token, s.now) in t.pending;
        }
      }
    }
  }

  lemma {:induction false} ServedAlways(s: State, run: seq<Action>, token: Token, ordered: bool, w: nat)
    requires Past(s) && AllServed(s, token, ordered, w)
    requires CanRun(s, run) && PunctualRun(s, run, token, w) && (ordered ==> OldestFirstRun(s, run, token))
    ensures Past(AfterRun(s, run)) && AllServed(AfterRun(s, run), token, ordered, w)
    ensures Punctual(AfterRun(s, run), token, w)
    decreases |run|
  {
    if run != [] {
      PastKept(s, run[0]);
      AllServedKept(s, run[0], token, ordered, w);
      ServedAlways(Apply(s, run[0]), run[1..], token, ordered, w);
    }
  }

  /** A recent use suffices. In a run whose refreshes of the token are punctual, a token that
      still has its row and was used at u verifies at every instant after u + w and before
      u + 30min - w, or u + 30min when refreshes are also written oldest first, exactly while
      it is not 24 hours old. */
  lemma RecentUseSuffices(now: Time, run: seq<Action>, token: Token, ordered: bool, w: nat, u: Time)
    requires CanRun(Empty(now), run) && PunctualRun(Empty(now), run, token, w)
    requires ordered ==> OldestFirstRun(Empty(now), run, token)
    requires var s := AfterRun(Empty(now), run);
             && token in s.sessions && UsedAt(s, token, u, |s.verifications|)
             && u + w < s.now < u + SESSION_IDLE_DURATION - Slack(ordered, w)
    ensures var s := AfterRun(Empty(now), run);
            && token in s.issued
            && (Lookup(s.sessions, token, s.now).Some? <==> s.now < s.issued[token].at + SESSION_DURATION)
  {
    ServedAlways(Empty(now), run, token, ordered, w);
    assert Served(AfterRun(Empty(now), run), token, u, ordered, w);
  }

  // ---- Regular use keeps a session ----

  /** Somebody asked for the token at u, whatever the answer; its creation counts. */
  ghost predicate AskedAt(s: State, token: Token, u: Time) {
    || (token in s.issued && s.issued[token].at == u)
    || exists k :: 0 <= k < |s.verifications| && s.verifications[k].token == token && s.verifications[k].at == u
  }

  /** It is not more than `g` since the token was last asked for. */
  ghost predicate InUse(s: State, token: Token, g: nat) {
    token in s.issued ==> exists u :: u >= s.now - g && AskedAt(s, token, u)
  }

  /** The login succeeds, nobody asks for the token before it has, and nobody logs it out. */
  predicate ByItsUser(s: State, a: Action, token: Token) {
    && a != FailCreate(token) && a != Logout(token)
    && (a == VerifySession(token) ==> token in s.issued && token !in s.creating)
  }

  ghost predicate InUseRun(s: State, run: seq<Action>, token: Token, g: nat)
    requires CanRun(s, run)
    decreases |run|
  {
    && InUse(s, token, g)
    && (run != [] ==> ByItsUser(s, run[0], token) && InUseRun(Apply(s, run[0]), run[1..], token, g))
  }

  ghost predicate Young(s: State, token: Token) {
    token in s.issued && s.now < s.issued[token].at + SESSION_DURATION
  }

  /** The row's expiry counts from a use at most `g` before a refresh that is still to come, or
      from the last use, in each case with a slack of `w`. */
  ghost predicate Lasting(s: State, token: Token, g: nat, w: nat)
    requires token in s.sessions
  {
    var base := s.sessions[token].idleExpiry - SESSION_IDLE_DURATION;
    || (exists u :: StillPending(s, token, u) && base >= u - g - w)
    || (forall u :: AskedAt(s, token, u) ==> base >= u - w)
  }

  /** Every verification of the token before it was 24 hours old has succeeded. */
  ghost predicate Answered(s: State, token: Token) {
    forall k {:trigger s.verifications[k]} :: 0 <= k < |s.verifications| && s.verifications[k].token == token ==>
      && token in s.issued && token !in s.creating
      && (s.verifications[k].at < s.issued[token].at + SESSION_DURATION ==> s.verifications[k].answer.Some?)
  }

  ghost predicate Survives(s: State, token: Token, g: nat, w: nat) {
    && Past(s) && Answered(s, token)
    && (Young(s, token) && token !in s.creating ==> token in s.sessions && Lasting(s, token, g, w))
  }

  /** The row is live and stays so for the time a refresh may take. */
  lemma SurvivorIsLive(s: State, token: Token, g: nat, w: nat)
    requires Survives(s, token, g, w) && InUse(s, token, g) && Punctual(s, token, w)
    requires Young(s, token) && token !in s.creating && g + 2 * w < SESSION_IDLE_DURATION
    ensures token in s.sessions && Live(s.sessions[token], s.now) && !Expired(s.sessions[token], s.now)
  {
    var u :| u >= s.now - g && AskedAt(s, token, u);
  }

  lemma AnsweredKept(s: State, a: Action, token: Token, g: nat, w: nat)
    requires Survives(s, token, g, w) && InUse(s, token, g) && Punctual(s, token, w)
    requires Enabled(s, a) && ByItsUser(s, a, token) && g + 2 * w < SESSION_IDLE_DURATION
    ensures Answered(Apply(s, a), token)
  {
    if Young(s, token) && token !in s.creating {
      SurvivorIsLive(s, token, g, w);
    }
    VerificationsGrow(s, a);
    if token in s.issued && token !in s.creating {
      IssueStays(s, a, token);
    }
    hide Apply, Lasting, Past, AskedAt, Punctual;
    var t := Apply(s, a);
    forall k {:trigger t.verifications[k]} | 0 <= k < |t.verifications| && t.verifications[k].token == token
      ensures token in t.issued && token !in t.creating
      ensures t.verifications[k].at < t.issued[token].at + SESSION_DURATION ==> t.verifications[k].answer.Some?
    {
      if k < |s.verifications| {
        assert t.verifications[k] == s.verifications[k];
      }
    }
  }

  lemma AsksMove(s: State, a: Action, token: Token)
    requires Enabled(s, a) && Past(s)
    ensures forall u {:trigger AskedAt(Apply(s, a), token, u)} :: AskedAt(Apply(s, a), token, u) ==>
              || (AskedAt(s, token, u) && u <= s.now)
              || (u == s.now && (a == VerifySession(token) || (a.BeginCreate? && a.token == token)))
  {
    var t := Apply(s, a);
    forall u | AskedAt(t, token, u) && !(token in t.issued && t.issued[token].at == u)
      ensures (AskedAt(s, token, u) && u <= s.now) || (u == s.now && a == VerifySession(token))
    {
      var k :| 0 <= k < |t.verifications| && t.verifications[k].token == token && t.verifications[k].at == u;
      if k < |s.verifications| {
        assert s.verifications[k] == t.verifications[k];
      }
    }
  }

  lemma LastingKept(s: State, a: Action, token: Token, g: nat, w: nat)
    requires Survives(s, token, g, w) && InUse(s, token, g) && Punctual(s, token, w)
    requires Enabled(s, a) && ByItsUser(s, a, token) && !Loses(a, token) && g + 2 * w < SESSION_IDLE_DURATION
    requires Young(s, token) && token !in s.creating
    ensures token in Apply(s, a).sessions && Lasting(Apply(s, a), token, g, w)
  {
    RowMoves(s, a, token);
    PendingMoves(s, a, token);
    AsksMove(s, a, token);
    SurvivorIsLive(s, token, g, w);
    if a == VerifySession(token) {
      assert Spawned(|s.verifications|, token, s.now) in Apply(s, a).pending;
      assert StillPending(Apply(s, a), token, s.now);
      var u :| u >= s.now - g && AskedAt(s, token, u);
    }
    hide Apply, Live, Expired, AskedAt, StillPending;
  }

  lemma InsertedLasts(s: State, token: Token, g: nat, w: nat)
    requires Past(s) && Answered(s, token) && Enabled(s, Insert(token))
    ensures token in Apply(s, Insert(token)).sessions && Lasting(Apply(s, Insert(token)), token, g, w)
  {}

  lemma {:induction false} SurvivesAlways(s: State, run: seq<Action>, token: Token, g: nat, w: nat)
    requires Survives(s, token, g, w) && g + 2 * w < SESSION_IDLE_DURATION
    requires CanRun(s, run) && PunctualRun(s, run, token, w) && InUseRun(s, run, token, g)
    ensures var t := AfterRun(s, run); Survives(t, token, g, w) && InUse(t, token, g) && Punctual(t, token, w)
    decreases |run|
  {
    if run != [] {
      var t := Apply(s, run[0]);
      PastKept(s, run[0]);
      AnsweredKept(s, run[0], token, g, w);
      if Young(t, token) && token !in t.creating {
        if run[0] == Insert(token) {
          InsertedLasts(s, token, g, w);
        } else {
          LastingKept(s, run[0], token, g, w);
        }
      }
      SurvivesAlways(t, run[1..], token, g, w);
    }
  }

  /** Regular use keeps a session, whatever the order of its refreshes and wherever cleanups
      come: if the token is asked for at least every g, its refreshes are written within w, and
      g + 2w < 30min, then until it is 24 hours old its row is there, it resolves to its owner
      at every instant, and every verification ever made of it has succeeded. */
  lemma RegularUseKeepsSession(now: Time, run: seq<Action>, token: Token, g: nat, w: nat)
    requires CanRun(Empty(now), run) && g + 2 * w < SESSION_IDLE_DURATION
    requires PunctualRun(Empty(now), run, token, w) && InUseRun(Empty(now), run, token, g)
    ensures var s := AfterRun(Empty(now), run);
            && (Young(s, token) && token !in s.creating ==>
                  Lookup(s.sessions, token, s.now) == Some(s.issued[token].owner))
            && (forall k {:trigger s.verifications[k]} ::
                  0 <= k < |s.verifications| && s.verifications[k].token == token ==>
                    && token in s.issued
                    && (s.verifications[k].at < s.issued[token].at + SESSION_DURATION ==>
                          s.verifications[k].answer == Some(s.issued[token].owner)))
  {
    SurvivesAlways(Empty(now), run, token, g, w);
    OwnedAlways(Empty(now), run);
    var s := AfterRun(Empty(now), run);
    if Young(s, token) && token !in s.creating {
      SurvivorIsLive(s, token, g, w);
    }
  }
}
