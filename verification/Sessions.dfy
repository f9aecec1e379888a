/** The sessions table and what changes it: logins, verifications with their detached refresh
    goroutines, logouts and cleanup, interleaved freely. A login and a refresh each read the
    clock first and reach the table later. */
module Sessions {
  import opened GoTime
  import opened Wrappers

  type Token = string
  type UserId = int

  const SECOND: int := 1_000_000_000
  const SESSION_DURATION: int := 24 * 60 * 60 * SECOND
  const SESSION_IDLE_DURATION: int := 30 * 60 * SECOND

  datatype Row = Row(owner: UserId, absoluteExpiry: Time, idleExpiry: Time)

  /** The refresh goroutine of verification number `id`, made at `verifiedAt`: it has not read the
      clock yet, or it has computed the expiry it is going to write. */
  datatype Refresh =
    | Spawned(id: nat, token: Token, verifiedAt: Time)
    | Computed(id: nat, token: Token, verifiedAt: Time, expiry: Time)

  /** A token handed to a user, and the clock reading its expiries count from. */
  datatype Issue = Issue(owner: UserId, at: Time)

  /** One VerifySession and its answer; None is "unauthorized". */
  datatype Verification = Verification(token: Token, at: Time, answer: Option<UserId>)

  datatype State = State(
    now: Time,
    sessions: map<Token, Row>,
    creating: map<Token, Issue>,          // logins between time.Now() and the INSERT
    pending: set<Refresh>,
    issued: map<Token, Issue>,            // history: every token ever drawn
    verifications: seq<Verification>)     // history

  datatype Action =
    | Tick(t: Time)
    | BeginCreate(token: Token, owner: UserId)
    | Insert(token: Token)
    | FailCreate(token: Token)
    | VerifySession(token: Token)
    | ComputeExpiry(refresh: Refresh)
    | WriteExpiry(refresh: Refresh)
    | LoseRefresh(refresh: Refresh)
    | Logout(token: Token)
    | Cleanup

  // ---- The queries ----

  /** The WHERE clause of GetPrincipalBySessionId. */
  predicate Live(row: Row, now: Time) {
    row.absoluteExpiry > now && row.idleExpiry > now
  }

  /** The WHERE clause of DeleteExpiredSessions; a row that expires right now matches neither. */
  predicate Expired(row: Row, now: Time) {
    row.absoluteExpiry < now || row.idleExpiry < now
  }

  function InsertRow(sessions: map<Token, Row>, token: Token, row: Row): map<Token, Row> {
    if token in sessions then sessions else sessions[token := row]
  }

  function UpdateIdleExpiry(sessions: map<Token, Row>, token: Token, expiry: Time): map<Token, Row> {
    if token in sessions then sessions[token := sessions[token].(idleExpiry := expiry)] else sessions
  }

  function DeleteExpired(sessions: map<Token, Row>, now: Time): map<Token, Row> {
    map token | token in sessions && !Expired(sessions[token], now) :: sessions[token]
  }

  function Lookup(sessions: map<Token, Row>, token: Token, now: Time): Option<UserId> {
    if token in sessions && Live(sessions[token], now) then Some(sessions[token].owner) else None
  }

  function FreshRow(issue: Issue): Row {
    Row(issue.owner, issue.at + SESSION_DURATION, issue.at + SESSION_IDLE_DURATION)
  }

  // ---- Actions ----

  predicate Enabled(s: State, a: Action) {
    match a
    case Tick(t) => t >= s.now
    case BeginCreate(token, _) => token != "" && token !in s.issued
    case Insert(token) => token in s.creating
    case FailCreate(token) => token in s.creating
    case VerifySession(_) => true
    case ComputeExpiry(r) => r in s.pending && r.Spawned?
    case WriteExpiry(r) => r in s.pending && r.Computed?
    case LoseRefresh(r) => r in s.pending
    case Logout(_) => true
    case Cleanup => true
  }

  function Apply(s: State, a: Action): State
    requires Enabled(s, a)
  {
    match a
    case Tick(t) => s.(now := t)
    case BeginCreate(token, owner) =>
      var issue := Issue(owner, s.now);
      s.(creating := s.creating[token := issue], issued := s.issued[token := issue])
    case Insert(token) =>
      s.(sessions := InsertRow(s.sessions, token, FreshRow(s.creating[token])), creating := s.creating - {token})
    case FailCreate(token) => s.(creating := s.creating - {token})
    case VerifySession(token) =>
      var answer := Lookup(s.sessions, token, s.now);
      s.(pending := if answer.Some? then s.pending + {Spawned(|s.verifications|, token, s.now)} else s.pending,
         verifications := s.verifications + [Verification(token, s.now, answer)])
    case ComputeExpiry(r) =>
      var computed := Computed(r.id, r.token, r.verifiedAt, s.now + SESSION_IDLE_DURATION);
      s.(pending := s.pending - {r} + {computed})
    case WriteExpiry(r) =>
      s.(sessions := UpdateIdleExpiry(s.sessions, r.token, r.expiry), pending := s.pending - {r})
    case LoseRefresh(r) => s.(pending := s.pending - {r})
    case Logout(token) => if token == "" then s else s.(sessions := s.sessions - {token})
    case Cleanup => s.(sessions := DeleteExpired(s.sessions, s.now))
  }

  /** An empty table. */
  function Empty(now: Time): State {
    State(now, map[], map[], {}, map[], [])
  }

  predicate CanRun(s: State, run: seq<Action>)
    decreases |run|
  {
    run == [] || (Enabled(s, run[0]) && CanRun(Apply(s, run[0]), run[1..]))
  }

  function AfterRun(s: State, run: seq<Action>): State
    requires CanRun(s, run)
    decreases |run|
  {
    if run == [] then s else AfterRun(Apply(s, run[0]), run[1..])
  }

  /** A run built backwards from its last action. */
  lemma RunFrom(s: State, a: Action, rest: seq<Action>)
    requires Enabled(s, a) && CanRun(Apply(s, a), rest)
    ensures CanRun(s, [a] + rest) && AfterRun(s, [a] + rest) == AfterRun(Apply(s, a), rest)
  {
    assert ([a] + rest)[1..] == rest;
  }

  /** A run extended by one action at its end. */
  lemma {:induction false} RunAndThen(s: State, run: seq<Action>, a: Action)
    requires CanRun(s, run) && Enabled(AfterRun(s, run), a)
    ensures CanRun(s, run + [a]) && AfterRun(s, run + [a]) == Apply(AfterRun(s, run), a)
    decreases |run|
  {
    if run == [] {
      assert AfterRun(Apply(s, a), []) == Apply(s, a);
      assert run + [a] == [a] && [a][1..] == [];
    } else {
      assert (run + [a])[1..] == run[1..] + [a];
      RunAndThen(Apply(s, run[0]), run[1..], a);
    }
  }

  /** A run split at its last action. */
  lemma {:induction false} LastAction(s: State, run: seq<Action>)
    requires CanRun(s, run) && run != []
    ensures var before, a := run[..|run| - 1], run[|run| - 1];
            && CanRun(s, before) && Enabled(AfterRun(s, before), a)
            && AfterRun(s, run) == Apply(AfterRun(s, before), a)
    decreases |run|
  {
    if |run| > 1 {
      LastAction(Apply(s, run[0]), run[1..]);
      assert run[1..][..|run| - 2] == run[..|run| - 1][1..];
    } else {
      assert run == [run[0]] && run[..0] == [];
    }
  }
}
