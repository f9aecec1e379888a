/** A run of the sessions table told from its actions alone: the clock, which tokens were issued
    and when, when each refresh goroutine read the clock, what became of each row, and what
    every verification answered. The model is proved to agree in every run. */
module SessionTraces {
  import opened GoTime
  import opened Wrappers
  import opened Sessions
  import opened SessionTheorems

  function Clock(now: Time, run: seq<Action>): Time {
    if run == [] then now
    else
      match run[|run| - 1]
      case Tick(t) => t
      case _ => Clock(now, run[..|run| - 1])
  }

  /** To whom and when a token was issued: what the clock said when its login read it. */
  function IssuedIn(now: Time, run: seq<Action>, token: Token): Option<Issue> {
    if run == [] then None
    else
      var before := run[..|run| - 1];
      match run[|run| - 1]
      case BeginCreate(x, owner) =>
        if x == token then Some(Issue(owner, Clock(now, before))) else IssuedIn(now, before, token)
      case _ => IssuedIn(now, before, token)
  }

  /** What the clock said when the refresh of verification k read it. */
  function ReadAt(now: Time, run: seq<Action>, k: nat): Option<Time> {
    if run == [] then None
    else
      var before := run[..|run| - 1];
      match run[|run| - 1]
      case ComputeExpiry(r) => if r.id == k then Some(Clock(now, before)) else ReadAt(now, before, k)
      case _ => ReadAt(now, before, k)
  }

  /** The refresh of verification k has been written, or lost. */
  predicate Settled(run: seq<Action>, k: nat) {
    run != [] && ((var a := run[|run| - 1]; (a.WriteExpiry? || a.LoseRefresh?) && a.refresh.id == k)
                  || Settled(run[..|run| - 1], k))
  }

  /** The tokens that were verified, in order. */
  function Asked(run: seq<Action>): seq<Token> {
    if run == [] then []
    else
      var a := run[|run| - 1];
      Asked(run[..|run| - 1]) + if a.VerifySession? then [a.token] else []
  }

  /** What has become of a token's row. `base` is the clock reading of the refresh written to it
      last, or of its creation when there was none. */
  datatype Fate =
    | NoRow
    | Kept(base: Time)
    | LoggedOut
    | Cleaned(base: Time, at: Time)

  /** The reading of the clock that an action writes to the token's row. */
  function Written(now: Time, before: seq<Action>, a: Action, token: Token): Option<Time> {
    if a.WriteExpiry? && a.refresh.id < |Asked(before)| && Asked(before)[a.refresh.id] == token
    then ReadAt(now, before, a.refresh.id) else None
  }

  /** What an action at instant t makes of the row of a token with this issue. */
  function FateAfter(fate: Fate, a: Action, token: Token, issue: Option<Issue>, t: Time, written: Option<Time>): Fate {
    match fate
    case NoRow => if a == Insert(token) && issue.Some? then Kept(issue.value.at) else NoRow
    case Kept(base) =>
      if a == Logout(token) && token != "" then LoggedOut
      else if a == Cleanup && (t > base + SESSION_IDLE_DURATION
                               || (issue.Some? && t > issue.value.at + SESSION_DURATION)) then Cleaned(base, t)
      else if written.Some? then Kept(written.value)
      else fate
    case _ => fate
  }

  function FateIn(now: Time, run: seq<Action>, token: Token): Fate {
    if run == [] then NoRow
    else
      var before, a := run[..|run| - 1], run[|run| - 1];
      FateAfter(FateIn(now, before, token), a, token, IssuedIn(now, before, token), Clock(now, before),
                Written(now, before, a, token))
  }

  /** Whom the token resolves to after the run. */
  function Answer(now: Time, run: seq<Action>, token: Token): Option<UserId> {
    var fate, issue, t := FateIn(now, run, token), IssuedIn(now, run, token), Clock(now, run);
    if fate.Kept? && issue.Some? && t < issue.value.at + SESSION_DURATION && t < fate.base + SESSION_IDLE_DURATION
    then Some(issue.value.owner) else None
  }

  function VerificationsIn(now: Time, run: seq<Action>): seq<Verification> {
    if run == [] then []
    else
      var before := run[..|run| - 1];
      match run[|run| - 1]
      case VerifySession(token) =>
        VerificationsIn(now, before) + [Verification(token, Clock(now, before), Answer(now, before, token))]
      case _ => VerificationsIn(now, before)
  }

  /** The refresh that verification k started, as it now is. */
  function RefreshOf(now: Time, run: seq<Action>, k: nat): Refresh
    requires k < |VerificationsIn(now, run)|
  {
    var v := VerificationsIn(now, run)[k];
    match ReadAt(now, run, k)
    case None => Spawned(k, v.token, v.at)
    case Some(t) => Computed(k, v.token, v.at, t + SESSION_IDLE_DURATION)
  }

  predicate IsPending(now: Time, run: seq<Action>, r: Refresh) {
    && r.id < |VerificationsIn(now, run)| && VerificationsIn(now, run)[r.id].answer.Some?
    && !Settled(run, r.id) && r == RefreshOf(now, run, r.id)
  }

  // ---- The model agrees ----

  ghost predicate IssuesAgree(s: State, now: Time, run: seq<Action>) {
    && s.now == Clock(now, run)
    && (forall x :: IssuedIn(now, run, x) == if x in s.issued then Some(s.issued[x]) else None)
    && (forall x :: x in s.creating <==> x in s.issued && Insert(x) !in run && FailCreate(x) !in run)
    && (forall x :: Insert(x) in run || FailCreate(x) in run ==> x in s.issued)
  }

  ghost predicate RowStands(s: State, fate: Fate, inserted: bool, token: Token) {
    && (token in s.sessions <==> fate.Kept?)
    && (fate.NoRow? <==> !inserted)
    && (!fate.NoRow? ==> token in s.issued)
    && (fate.Kept? ==>
          s.sessions[token] == Row(s.issued[token].owner, s.issued[token].at + SESSION_DURATION,
                                   fate.base + SESSION_IDLE_DURATION))
    && (fate.Cleaned? ==>
          && fate.at <= s.now
          && (fate.base + SESSION_IDLE_DURATION < fate.at || s.issued[token].at + SESSION_DURATION < fate.at))
  }

  ghost predicate RowAgrees(s: State, now: Time, run: seq<Action>, token: Token) {
    RowStands(s, FateIn(now, run, token), Insert(token) in run, token)
  }

  ghost predicate RefreshesAgree(s: State, now: Time, run: seq<Action>) {
    && s.verifications == VerificationsIn(now, run)
    && |Asked(run)| == |s.verifications|
    && (forall k :: 0 <= k < |Asked(run)| ==> Asked(run)[k] == s.verifications[k].token)
    && (forall r {:trigger r in s.pending} :: r in s.pending <==> IsPending(now, run, r))
    && (forall k: nat {:trigger Settled(run, k)} :: k >= |s.verifications| ==>
          !Settled(run, k) && ReadAt(now, run, k).None?)
  }

  ghost predicate Agrees(s: State, now: Time, run: seq<Action>) {
    && RowsOwned(s) && IssuesAgree(s, now, run) && RefreshesAgree(s, now, run)
    && forall token :: RowAgrees(s, now, run, token)
  }

  /** What an action does to the issue of a token. */
  lemma IssueMoves(s: State, a: Action, x: Token)
    requires Enabled(s, a)
    ensures var t := Apply(s, a);
            && (x in t.issued <==> x in s.issued || (a.BeginCreate? && a.token == x))
            && (x in t.issued ==>
                  t.issued[x] == if a.BeginCreate? && a.token == x then Issue(a.owner, s.now) else s.issued[x])
            && (x in t.creating <==>
                  (a.BeginCreate? && a.token == x) || (x in s.creating && a != Insert(x) && a != FailCreate(x)))
  {}

  lemma IssuesAgreeKept(s: State, now: Time, before: seq<Action>, a: Action)
    requires IssuesAgree(s, now, before) && Enabled(s, a)
    ensures IssuesAgree(Apply(s, a), now, before + [a])
  {
    var t, run := Apply(s, a), before + [a];
    assert run[..|before|] == before;
    assert t.now == Clock(now, run);
    forall x
      ensures IssuedIn(now, run, x) == if x in t.issued then Some(t.issued[x]) else None
      ensures x in t.creating <==> x in t.issued && Insert(x) !in run && FailCreate(x) !in run
      ensures Insert(x) in run || FailCreate(x) in run ==> x in t.issued
    {
      IssueMoves(s, a, x);
      assert IssuedIn(now, before, x) == if x in s.issued then Some(s.issued[x]) else None;
      assert forall y :: y in run <==> y in before || y == a;
      hide Apply, Clock;
    }
  }

  lemma RowStandsKept(s: State, a: Action, token: Token, fate: Fate, inserted: bool)
    requires RowsOwned(s) && Enabled(s, a) && RowStands(s, fate, inserted, token)
    requires a == Insert(token) ==> !inserted
    ensures var issue := if token in s.issued then Some(s.issued[token]) else None;
            var written := if a.WriteExpiry? && a.refresh.token == token
                           then Some(a.refresh.expiry - SESSION_IDLE_DURATION) else None;
            RowStands(Apply(s, a), FateAfter(fate, a, token, issue, s.now, written),
                      inserted || a == Insert(token), token)
  {
    RowMoves(s, a, token);
    if token in s.issued {
      IssueStays(s, a, token);
    }
    hide Apply;
  }

  lemma WrittenAgrees(s: State, now: Time, before: seq<Action>, a: Action, token: Token)
    requires RefreshesAgree(s, now, before) && Enabled(s, a)
    ensures Written(now, before, a, token)
         == if a.WriteExpiry? && a.refresh.token == token
            then Some(a.refresh.expiry - SESSION_IDLE_DURATION) else None
  {
    if a.WriteExpiry? {
      assert IsPending(now, before, a.refresh);
    }
    hide VerificationsIn, Settled, Asked, ReadAt;
  }

  lemma RowAgreesKept(s: State, now: Time, before: seq<Action>, a: Action, token: Token)
    requires Agrees(s, now, before) && Enabled(s, a)
    ensures RowAgrees(Apply(s, a), now, before + [a], token)
  {
    assert (before + [a])[..|before|] == before;
    assert Insert(token) in before + [a] <==> Insert(token) in before || a == Insert(token);
    assert RowAgrees(s, now, before, token);
    assert IssuedIn(now, before, token) == if token in s.issued then Some(s.issued[token]) else None;
    WrittenAgrees(s, now, before, a, token);
    RowStandsKept(s, a, token, FateIn(now, before, token), Insert(token) in before);
    hide Apply, IssuedIn, Clock, Written, RowStands, FateAfter, RefreshesAgree, RowsOwned;
  }

  lemma AnswerAgrees(s: State, now: Time, run: seq<Action>, token: Token)
    requires RowAgrees(s, now, run, token) && IssuesAgree(s, now, run)
    ensures Lookup(s.sessions, token, s.now) == Answer(now, run, token)
  {
    assert IssuedIn(now, run, token) == if token in s.issued then Some(s.issued[token]) else None;
  }

  lemma VerificationsAgreeKept(s: State, now: Time, before: seq<Action>, a: Action)
    requires Agrees(s, now, before) && Enabled(s, a)
    ensures var t, run := Apply(s, a), before + [a];
            && t.verifications == VerificationsIn(now, run)
            && |Asked(run)| == |t.verifications|
            && (forall k :: 0 <= k < |Asked(run)| ==> Asked(run)[k] == t.verifications[k].token)
  {
    assert (before + [a])[..|before|] == before;
    VerificationsGrow(s, a);
    if a.VerifySession? {
      assert RowAgrees(s, now, before, a.token);
      AnswerAgrees(s, now, before, a.token);
    }
    hide Apply, IssuedIn, FateIn, Settled, ReadAt, Lookup, RowAgrees;
  }

  /** What an action does to the refresh of verification k. */
  lemma RefreshMoves(now: Time, before: seq<Action>, a: Action, k: nat)
    ensures var run := before + [a];
            && Settled(run, k) == (Settled(before, k) || ((a.WriteExpiry? || a.LoseRefresh?) && a.refresh.id == k))
            && ReadAt(now, run, k) == (if a.ComputeExpiry? && a.refresh.id == k then Some(Clock(now, before))
                                       else ReadAt(now, before, k))
            && VerificationsIn(now, before) <= VerificationsIn(now, run)
            && |VerificationsIn(now, run)| == |VerificationsIn(now, before)| + if a.VerifySession? then 1 else 0
  {
    assert (before + [a])[..|before|] == before;
    hide Clock;
  }

  lemma PendingAgreesKept(s: State, now: Time, before: seq<Action>, a: Action, r: Refresh)
    requires Agrees(s, now, before) && Enabled(s, a)
    requires Apply(s, a).verifications == VerificationsIn(now, before + [a])
    ensures r in Apply(s, a).pending <==> IsPending(now, before + [a], r)
  {
    RefreshMoves(now, before, a, r.id);
    assert r in s.pending <==> IsPending(now, before, r);
    if a.ComputeExpiry? || a.WriteExpiry? || a.LoseRefresh? {
      assert IsPending(now, before, a.refresh);
    }
    hide IssuedIn, FateIn, Lookup, RowAgrees, Asked, RowsOwned, VerificationsIn, Settled, ReadAt, Clock;
  }

  lemma RefreshesAgreeKept(s: State, now: Time, before: seq<Action>, a: Action)
    requires Agrees(s, now, before) && Enabled(s, a)
    ensures RefreshesAgree(Apply(s, a), now, before + [a])
  {
    VerificationsAgreeKept(s, now, before, a);
    var t, run := Apply(s, a), before + [a];
    forall r {:trigger r in t.pending}
      ensures r in t.pending <==> IsPending(now, run, r)
    {
      PendingAgreesKept(s, now, before, a, r);
    }
    forall k: nat | k >= |t.verifications|
      ensures !Settled(run, k) && ReadAt(now, run, k).None?
    {
      RefreshMoves(now, before, a, k);
      if a.ComputeExpiry? || a.WriteExpiry? || a.LoseRefresh? {
        assert IsPending(now, before, a.refresh);
      }
    }
  }

  lemma EmptyAgrees(now: Time)
    ensures Agrees(Empty(now), now, [])
  {
    assert forall token :: RowAgrees(Empty(now), now, [], token);
  }

  /** In every run the table is what its history says: which tokens were issued, to whom and when;
      every row, with the clock readings its two expiries count from; every refresh still on
      its way; and the answer of every verification. */
  lemma {:induction false} StateIsHistory(now: Time, run: seq<Action>)
    requires CanRun(Empty(now), run)
    ensures Agrees(AfterRun(Empty(now), run), now, run)
    decreases |run|
  {
    if run == [] {
      EmptyAgrees(now);
    } else {
      var before, a := run[..|run| - 1], run[|run| - 1];
      LastAction(Empty(now), run);
      StateIsHistory(now, before);
      var s := AfterRun(Empty(now), before);
      RowsOwnedKept(s, a);
      IssuesAgreeKept(s, now, before, a);
      RefreshesAgreeKept(s, now, before, a);
      forall token
        ensures RowAgrees(Apply(s, a), now, before + [a], token)
      {
        RowAgreesKept(s, now, before, a, token);
      }
      assert before + [a] == run;
      hide RowsOwned, IssuesAgree, RefreshesAgree, RowAgrees, Apply;
    }
  }

  /** What can happen after a run, told from the run. */
  predicate Possible(now: Time, run: seq<Action>, a: Action) {
    match a
    case Tick(t) => t >= Clock(now, run)
    case BeginCreate(token, _) => token != "" && IssuedIn(now, run, token).None?
    case Insert(token) => LoginPending(now, run, token)
    case FailCreate(token) => LoginPending(now, run, token)
    case VerifySession(_) => true
    case ComputeExpiry(r) => IsPending(now, run, r) && ReadAt(now, run, r.id).None?
    case WriteExpiry(r) => IsPending(now, run, r) && ReadAt(now, run, r.id).Some?
    case LoseRefresh(r) => IsPending(now, run, r)
    case Logout(_) => true
    case Cleanup => true
  }

  predicate LoginPending(now: Time, run: seq<Action>, token: Token) {
    IssuedIn(now, run, token).Some? && Insert(token) !in run && FailCreate(token) !in run
  }

  /** Exactly what the history allows can happen next. */
  lemma PossibleIff(now: Time, run: seq<Action>, a: Action)
    requires CanRun(Empty(now), run)
    ensures Enabled(AfterRun(Empty(now), run), a) <==> Possible(now, run, a)
  {
    StateIsHistory(now, run);
    var s := AfterRun(Empty(now), run);
    assert forall x :: IssuedIn(now, run, x) == if x in s.issued then Some(s.issued[x]) else None;
    if a.ComputeExpiry? || a.WriteExpiry? || a.LoseRefresh? {
      assert a.refresh in s.pending <==> IsPending(now, run, a.refresh);
    }
    hide CanRun, AfterRun, IssuedIn, VerificationsIn, ReadAt, Settled, RowAgrees, RowsOwned;
  }
}
