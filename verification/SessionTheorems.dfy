/** What the sessions table guarantees over every run. */
module SessionTheorems {
  import opened GoTime
  import opened Wrappers
  import opened Sessions

  // ---- History ----

  /** `t` remembers everything that was issued and verified in `s`. */
  ghost predicate Extends(s: State, t: State) {
    && s.verifications <= t.verifications
    && (forall x :: x in s.issued ==> x in t.issued && t.issued[x] == s.issued[x])
  }

  lemma HistoryGrows(s: State, a: Action)
    requires Enabled(s, a)
    ensures Extends(s, Apply(s, a))
  {}

  lemma {:induction false} HistoryGrowsAlways(s: State, run: seq<Action>)
    requires CanRun(s, run)
    ensures Extends(s, AfterRun(s, run))
    decreases |run|
  {
    if run != [] {
      HistoryGrows(s, run[0]);
      HistoryGrowsAlways(Apply(s, run[0]), run[1..]);
    }
  }

  /** What an action does to the token's row. */
  lemma RowMoves(s: State, a: Action, token: Token)
    requires Enabled(s, a)
    ensures var t := Apply(s, a);
            if token !in s.sessions then
              && (token in t.sessions <==> a == Insert(token))
              && (a == Insert(token) ==> t.sessions[token] == FreshRow(s.creating[token]))
            else if (a == Logout(token) && token != "") || (a == Cleanup && Expired(s.sessions[token], s.now)) then
              token !in t.sessions
            else
              && token in t.sessions
              && t.sessions[token] == if a.WriteExpiry? && a.refresh.token == token
                                      then s.sessions[token].(idleExpiry := a.refresh.expiry) else s.sessions[token]
  {}

  lemma IssueStays(s: State, a: Action, token: Token)
    requires Enabled(s, a) && token in s.issued
    ensures var t := Apply(s, a);
            && s.now <= t.now && token in t.issued && t.issued[token] == s.issued[token]
            && (token !in s.creating || a == Insert(token) ==> token !in t.creating)
  {}

  lemma VerificationsGrow(s: State, a: Action)
    requires Enabled(s, a)
    ensures Apply(s, a).verifications == s.verifications
         + if a.VerifySession? then [Verification(a.token, s.now, Lookup(s.sessions, a.token, s.now))] else []
  {}

  // ---- Absolute ceiling and owner stability ----

  ghost predicate RowsOwned(s: State) {
    && (forall token :: token in s.creating ==>
          token in s.issued && s.creating[token] == s.issued[token] && token !in s.sessions)
    && (forall token :: token in s.sessions ==>
          token in s.issued
          && s.sessions[token].owner == s.issued[token].owner
          && s.sessions[token].absoluteExpiry == s.issued[token].at + SESSION_DURATION)
  }

  ghost predicate AnswersOwned(s: State) {
    forall k {:trigger s.verifications[k]} :: 0 <= k < |s.verifications| ==>
      var v := s.verifications[k];
      v.answer.Some? ==>
        v.token in s.issued && v.answer == Some(s.issued[v.token].owner)
        && v.at < s.issued[v.token].at + SESSION_DURATION
  }

  lemma RowsOwnedKept(s: State, a: Action)
    requires RowsOwned(s) && Enabled(s, a)
    ensures RowsOwned(Apply(s, a))
  {}

  lemma AnswersOwnedKept(s: State, a: Action)
    requires RowsOwned(s) && AnswersOwned(s) && Enabled(s, a)
    ensures AnswersOwned(Apply(s, a))
  {
    HistoryGrows(s, a);
    var t := Apply(s, a);
    forall k {:trigger t.verifications[k]} | 0 <= k < |t.verifications| && t.verifications[k].answer.Some?
      ensures var v := t.verifications[k];
              v.token in t.issued && v.answer == Some(t.issued[v.token].owner)
              && v.at < t.issued[v.token].at + SESSION_DURATION
    {
      if k < |s.verifications| {
        assert t.verifications[k] == s.verifications[k];
      }
    }
  }

  lemma {:induction false} OwnedAlways(s: State, run: seq<Action>)
    requires RowsOwned(s) && AnswersOwned(s) && CanRun(s, run)
    ensures RowsOwned(AfterRun(s, run)) && AnswersOwned(AfterRun(s, run))
    decreases |run|
  {
    if run != [] {
      RowsOwnedKept(s, run[0]);
      AnswersOwnedKept(s, run[0]);
      OwnedAlways(Apply(s, run[0]), run[1..]);
    }
  }

  /** Over every run, a token's owner and absolute expiry are the same whenever it has a row;
      it resolves to the user it was issued to and to nobody else, and never at or after 24
      hours from the clock reading it was created with. */
  lemma CeilingAndOwner(now: Time, before: seq<Action>, later: seq<Action>, token: Token)
    requires CanRun(Empty(now), before) && CanRun(AfterRun(Empty(now), before), later)
    ensures var s, t := AfterRun(Empty(now), before), AfterRun(AfterRun(Empty(now), before), later);
            && (token in s.sessions && token in t.sessions ==>
                  t.sessions[token].owner == s.sessions[token].owner
                  && t.sessions[token].absoluteExpiry == s.sessions[token].absoluteExpiry)
            && (token in s.issued ==>
                  forall k :: 0 <= k < |t.verifications| && t.verifications[k].token == token
                              && t.verifications[k].answer.Some? ==>
                    t.verifications[k].answer.value == s.issued[token].owner
                    && t.verifications[k].at < s.issued[token].at + SESSION_DURATION)
  {
    OwnedAlways(Empty(now), before);
    OwnedAlways(AfterRun(Empty(now), before), later);
    HistoryGrowsAlways(AfterRun(Empty(now), before), later);
  }

  // ---- No resurrection ----

  /** The token was drawn and its row is gone, or is not live and no refresh is on its way. */
  ghost predicate Dead(s: State, token: Token) {
    && token in s.issued && token !in s.creating
    && (token in s.sessions ==>
          !Live(s.sessions[token], s.now) && forall r :: r in s.pending ==> r.token != token)
  }

  lemma DeadKept(s: State, a: Action, token: Token)
    requires Dead(s, token) && Enabled(s, a)
    ensures Dead(Apply(s, a), token)
    ensures a == VerifySession(token) ==> Lookup(s.sessions, token, s.now).None?
  {
    DeadRowKept(s, a, token);
    if token in s.sessions {
      NoRefreshKept(s, a, token);
    }
  }

  lemma DeadRowKept(s: State, a: Action, token: Token)
    requires Dead(s, token) && Enabled(s, a)
    ensures var t := Apply(s, a);
            && token in t.issued && token !in t.creating
            && (token in t.sessions ==> token in s.sessions && !Live(t.sessions[token], t.now))
  {}

  lemma NoRefreshKept(s: State, a: Action, token: Token)
    requires Lookup(s.sessions, token, s.now).None? && Enabled(s, a)
    requires forall r :: r in s.pending ==> r.token != token
    ensures forall r :: r in Apply(s, a).pending ==> r.token != token
  {
    hide Lookup;
  }

  /** Once a token's row has been deleted, by logout or by cleanup, no verification of it ever
      succeeds again, whatever refreshes were pending; the same holds of an expired token that
      has no refresh pending. */
  lemma {:induction false} NoResurrection(s: State, run: seq<Action>, token: Token)
    requires Dead(s, token) && CanRun(s, run)
    ensures Dead(AfterRun(s, run), token)
    ensures s.verifications <= AfterRun(s, run).verifications
    ensures forall k :: |s.verifications| <= k < |AfterRun(s, run).verifications|
                        && AfterRun(s, run).verifications[k].token == token ==>
              AfterRun(s, run).verifications[k].answer.None?
    decreases |run|
  {
    if run != [] {
      var t := Apply(s, run[0]);
      DeadKept(s, run[0], token);
      NoResurrection(t, run[1..], token);
      assert s.verifications <= t.verifications;
      assert |t.verifications| > |s.verifications| ==> t.verifications[|s.verifications|].token == token ==>
          t.verifications[|s.verifications|].answer.None?;
    }
  }

  /** Deletion is what makes a token dead, at any point of any run. */
  lemma DeletionIsDeath(now: Time, run: seq<Action>, a: Action, token: Token)
    requires CanRun(Empty(now), run) && Enabled(AfterRun(Empty(now), run), a)
    requires token in AfterRun(Empty(now), run).sessions
    requires token !in Apply(AfterRun(Empty(now), run), a).sessions
    ensures Dead(Apply(AfterRun(Empty(now), run), a), token)
    ensures var s := AfterRun(Empty(now), run);
            a == Logout(token) || (a == Cleanup && Expired(s.sessions[token], s.now))
  {
    OwnedAlways(Empty(now), run);
  }

  // ---- The idle bound ----

  /** Use of the token at instant `at`: its creation, or one of the first `n` verifications. */
  ghost predicate UsedAt(s: State, token: Token, at: Time, n: nat)
    requires n <= |s.verifications|
  {
    || (token in s.issued && s.issued[token].at == at)
    || exists k :: 0 <= k < n && s.verifications[k].token == token && s.verifications[k].at == at
                   && s.verifications[k].answer.Some?
  }

  /** Some use of the token, among the first `n`, is after `t`. */
  ghost predicate UsedSince(s: State, token: Token, t: Time, n: nat)
    requires n <= |s.verifications|
  {
    exists at :: at >= t && UsedAt(s, token, at, n)
  }

  /** Every refresh reads the clock within `d` of the verification that spawned it. */
  predicate Timely(a: Action, now: Time, d: int) {
    a.ComputeExpiry? ==> now <= a.refresh.verifiedAt + d
  }

  predicate TimelyRun(s: State, run: seq<Action>, d: int)
    requires CanRun(s, run)
    decreases |run|
  {
    run != [] ==> Timely(run[0], s.now, d) && TimelyRun(Apply(s, run[0]), run[1..], d)
  }

  /** Every row is backed by a use: at most the idle duration and d before its expiry. */
  ghost predicate RowsUsed(s: State, d: nat) {
    && (forall token :: token in s.creating ==> token in s.issued && s.creating[token] == s.issued[token])
    && (forall token :: token in s.sessions ==>
          UsedSince(s, token, s.sessions[token].idleExpiry - SESSION_IDLE_DURATION - d, |s.verifications|))
  }

  ghost predicate RefreshesUsed(s: State, d: nat) {
    forall r :: r in s.pending ==>
      UsedAt(s, r.token, r.verifiedAt, |s.verifications|)
      && (r.Computed? ==> r.expiry <= r.verifiedAt + d + SESSION_IDLE_DURATION)
  }

  ghost predicate AnswerUsed(s: State, k: nat, d: nat)
    requires k < |s.verifications|
  {
    var v := s.verifications[k];
    UsedSince(s, v.token, v.at - SESSION_IDLE_DURATION - d + 1, k)
  }

  ghost predicate AnswersUsed(s: State, d: nat) {
    forall k :: 0 <= k < |s.verifications| && s.verifications[k].answer.Some? ==> AnswerUsed(s, k, d)
  }

  /** Later states remember every use. */
  lemma UsesRemembered(s: State, t: State, token: Token, at: Time, n: nat, m: nat)
    requires Extends(s, t) && n <= |s.verifications| && n <= m <= |t.verifications|
    ensures UsedAt(s, token, at, n) ==> UsedAt(t, token, at, m)
    ensures UsedSince(s, token, at, n) ==> UsedSince(t, token, at, m)
  {
    forall x | UsedAt(s, token, x, n)
      ensures UsedAt(t, token, x, m)
    {
      if !(token in s.issued && s.issued[token].at == x) {
        var k :| 0 <= k < n && s.verifications[k].token == token && s.verifications[k].at == x
                 && s.verifications[k].answer.Some?;
        assert t.verifications[k] == s.verifications[k];
      }
    }
  }

  lemma RowsUsedKept(s: State, a: Action, d: nat)
    requires RowsUsed(s, d) && RefreshesUsed(s, d) && Enabled(s, a)
    ensures RowsUsed(Apply(s, a), d)
  {
    HistoryGrows(s, a);
    var t := Apply(s, a);
    var n, m := |s.verifications|, |t.verifications|;
    forall token | token in t.sessions
      ensures UsedSince(t, token, t.sessions[token].idleExpiry - SESSION_IDLE_DURATION - d, m)
    {
      var since := t.sessions[token].idleExpiry - SESSION_IDLE_DURATION - d;
      UsesRemembered(s, t, token, since, n, m);
      if token in s.sessions && t.sessions[token] == s.sessions[token] {
      } else if a.WriteExpiry? {
        assert UsedAt(s, token, a.refresh.verifiedAt, n);
      } else {
        assert UsedAt(s, token, s.issued[token].at, n);
      }
    }
  }

  lemma RefreshesUsedKept(s: State, a: Action, d: nat)
    requires RefreshesUsed(s, d) && Enabled(s, a) && Timely(a, s.now, d)
    ensures RefreshesUsed(Apply(s, a), d)
  {
    HistoryGrows(s, a);
    var t := Apply(s, a);
    var n, m := |s.verifications|, |t.verifications|;
    forall r | r in t.pending
      ensures UsedAt(t, r.token, r.verifiedAt, m)
      ensures r.Computed? ==> r.expiry <= r.verifiedAt + d + SESSION_IDLE_DURATION
    {
      UsesRemembered(s, t, r.token, r.verifiedAt, n, m);
      if r !in s.pending && a.VerifySession? {
        assert t.verifications[n] == Verification(r.token, r.verifiedAt, t.verifications[n].answer);
      }
    }
  }

  lemma AnswersUsedKept(s: State, a: Action, d: nat)
    requires RowsUsed(s, d) && AnswersUsed(s, d) && Enabled(s, a)
    ensures AnswersUsed(Apply(s, a), d)
  {
    HistoryGrows(s, a);
    var t := Apply(s, a);
    forall k | 0 <= k < |t.verifications| && t.verifications[k].answer.Some?
      ensures AnswerUsed(t, k, d)
    {
      var v := t.verifications[k];
      UsesRemembered(s, t, v.token, v.at - SESSION_IDLE_DURATION - d + 1, k, k);
      if k < |s.verifications| {
        assert v == s.verifications[k] && AnswerUsed(s, k, d);
      } else {
        var since := s.sessions[v.token].idleExpiry - SESSION_IDLE_DURATION - d;
        assert UsedSince(s, v.token, since, k);
      }
    }
  }

  lemma {:induction false} UsedAlways(s: State, run: seq<Action>, d: nat)
    requires RowsUsed(s, d) && RefreshesUsed(s, d) && AnswersUsed(s, d)
    requires CanRun(s, run) && TimelyRun(s, run, d)
    ensures AnswersUsed(AfterRun(s, run), d)
    decreases |run|
  {
    if run != [] {
      RowsUsedKept(s, run[0], d);
      RefreshesUsedKept(s, run[0], d);
      AnswersUsedKept(s, run[0], d);
      UsedAlways(Apply(s, run[0]), run[1..], d);
    }
  }

  /** The idle bound: however refreshes are delayed, reordered or lost, a verification that
      succeeds at t has a creation or an earlier successful verification of the same token
      later than t - 30min - d. */
  lemma SuccessNeedsRecentUse(now: Time, run: seq<Action>, d: nat, k: nat)
    requires CanRun(Empty(now), run) && TimelyRun(Empty(now), run, d)
    requires k < |AfterRun(Empty(now), run).verifications|
    requires AfterRun(Empty(now), run).verifications[k].answer.Some?
    ensures var s := AfterRun(Empty(now), run);
            var v := s.verifications[k];
            exists at :: at > v.at - SESSION_IDLE_DURATION - d && UsedAt(s, v.token, at, k)
  {
    UsedAlways(Empty(now), run, d);
    var s := AfterRun(Empty(now), run);
    var v := s.verifications[k];
    assert AnswerUsed(s, k, d);
    var at :| at >= v.at - SESSION_IDLE_DURATION - d + 1 && UsedAt(s, v.token, at, k);
  }
}
