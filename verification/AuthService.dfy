/** The session operations of the auth service over the refresh token table. */
module AuthService {
  import opened Common
  import opened RefreshTokens
  import opened Text

  datatype Error = InvalidRefreshToken | Internal

  datatype Result<T> = Success(value: T) | Failure(error: Error)

  /** What a caller gets back: the user and a new raw refresh token. */
  datatype Login = Login(user: string, refreshToken: string)

  /** How the calls around the table turn out: the random source, the user lookup and the signing of the
      access token; `random` is the new raw token. */
  datatype Environment = Environment(now: int, random: Option<string>, userFound: bool, issued: bool, outcome: Outcome)

  const DEFAULT_TTL: int := 7 * 24 * 3600

  /** `hashRefreshToken` trims before it hashes. */
  function HashToken(sha: string -> string, raw: string): string { sha(TrimSpace(raw)) }

  datatype Call = IssueCall(user: string, env: Environment) | RefreshCall(raw: string, env: Environment)
                | LogoutCall(raw: string, now: int, outcome: Outcome)

  /** What a call does to the table; `None` when it fails before reaching it. */
  function OpOf(sha: string -> string, ttl: int, c: Call): Option<Op> {
    match c
    case IssueCall(user, e) =>
      if !e.issued || e.random.None? then None
      else Some(Save(user, HashToken(sha, e.random.value), e.now + ttl, e.outcome))
    case RefreshCall(raw, e) =>
      if TrimSpace(raw) == "" || e.random.None? then None
      else Some(Rotate(HashToken(sha, raw), HashToken(sha, e.random.value), e.now + ttl, e.now, e.outcome))
    case LogoutCall(raw, now, outcome) =>
      if TrimSpace(raw) == "" then None else Some(Revoke(HashToken(sha, raw), now, outcome))
  }

  /** The call changes the table: it gets as far as its statement, which is not rolled back and finds the tokens
      as it needs them. */
  predicate TakesEffect(t: Table, sha: string -> string, c: Call) {
    match c
    case IssueCall(_, e) =>
      e.issued && e.random.Some? && e.outcome != RolledBack && HashToken(sha, e.random.value) !in t
    case RefreshCall(raw, e) =>
      && TrimSpace(raw) != "" && e.random.Some? && e.outcome != RolledBack
      && Usable(t, HashToken(sha, raw), e.now) && HashToken(sha, e.random.value) !in t
    case LogoutCall(raw, _, outcome) =>
      TrimSpace(raw) != "" && outcome != RolledBack && Unrevoked(t, HashToken(sha, raw))
  }

  function After(t: Table, op: Option<Op>): Table { if op.None? then t else Apply(t, op.value) }

  class Service {
    const tokens: RefreshTokenRepository
    const ttl: int
    const sha: string -> string

    constructor (tokens: RefreshTokenRepository, ttl: int, sha: string -> string)
      ensures this.tokens == tokens && this.sha == sha
      ensures this.ttl == if ttl > 0 then ttl else 604800
    {
      this.tokens, this.sha := tokens, sha;
      this.ttl := if ttl <= 0 then DEFAULT_TTL else ttl;
    }

    method IssueTokenPair(user: string, e: Environment) returns (r: Result<Login>)
      modifies tokens
      ensures tokens.table == After(old(tokens.table), OpOf(sha, ttl, IssueCall(user, e)))
      ensures r.Success? ==> e.random.Some? && r.value == Login(user, e.random.value)
      ensures r.Success? <==> e.outcome == Acked && TakesEffect(old(tokens.table), sha, IssueCall(user, e))
    {
      if !e.issued || e.random.None? {
        return Failure(Internal);
      }
      var saved := tokens.SaveToken(user, HashToken(sha, e.random.value), e.now + ttl, e.outcome);
      if !saved {
        return Failure(Internal);
      }
      return Success(Login(user, e.random.value));
    }

    /** A refresh succeeds exactly when its rotation was effective and acknowledged and the calls after it
        succeeded; it says the token is invalid exactly when it is empty or the table does not hold it as usable. */
    method Refresh(rawToken: string, e: Environment) returns (r: Result<Login>)
      modifies tokens
      ensures tokens.table == After(old(tokens.table), OpOf(sha, ttl, RefreshCall(rawToken, e)))
      ensures r.Success? <==> e.outcome == Acked && TakesEffect(old(tokens.table), sha, RefreshCall(rawToken, e))
                              && e.userFound && e.issued
      ensures r.Success? ==> HashToken(sha, rawToken) in old(tokens.table) && e.random.Some?
                             && r.value == Login(old(tokens.table)[HashToken(sha, rawToken)].user, e.random.value)
      ensures var unknown := !Usable(old(tokens.table), HashToken(sha, rawToken), e.now) && e.outcome != RolledBack;
              r == Failure(InvalidRefreshToken) <==> TrimSpace(rawToken) == "" || (e.random.Some? && unknown)
    {
      var raw := TrimSpace(rawToken);
      if raw == "" {
        return Failure(InvalidRefreshToken);
      }
      if e.random.None? {
        return Failure(Internal);
      }
      TrimTwice(rawToken);
      var reply := tokens.RotateToken(HashToken(sha, raw), HashToken(sha, e.random.value), e.now + ttl, e.now, e.outcome);
      if reply.NotFound? {
        return Failure(InvalidRefreshToken);
      }
      if reply.DbError? || !e.userFound || !e.issued {
        return Failure(Internal);
      }
      return Success(Login(reply.user, e.random.value));
    }

    method Logout(rawToken: string, now: int, outcome: Outcome) returns (r: Result<()>)
      modifies tokens
      ensures tokens.table == After(old(tokens.table), OpOf(sha, ttl, LogoutCall(rawToken, now, outcome)))
      ensures r.Success? <==> TrimSpace(rawToken) != "" && outcome == Acked
      ensures r.Success? ==> !Unrevoked(tokens.table, HashToken(sha, rawToken))
      ensures r == Failure(InvalidRefreshToken) <==> TrimSpace(rawToken) == ""
    {
      var raw := TrimSpace(rawToken);
      if raw == "" {
        return Failure(InvalidRefreshToken);
      }
      TrimTwice(rawToken);
      var ok := tokens.RevokeToken(HashToken(sha, raw), now, outcome);
      return if ok then Success(()) else Failure(Internal);
    }
  }

  lemma TrimTwice(s: string)
    ensures TrimSpace(TrimSpace(s)) == TrimSpace(s)
  {
    TrimSpaceTrims(s);
    TrimSpaceTrims(TrimSpace(s));
  }

  /** The table operations of a run of service calls. */
  function OpsOf(sha: string -> string, ttl: int, calls: seq<Call>): seq<Op> {
    if calls == [] then []
    else
      var op := OpOf(sha, ttl, calls[|calls| - 1]);
      OpsOf(sha, ttl, calls[..|calls| - 1]) + (if op.None? then [] else [op.value])
  }

  /** Call `i` refreshes successfully, as far as the table is concerned. */
  predicate Refreshes(sha: string -> string, ttl: int, calls: seq<Call>, i: nat)
    requires i < |calls|
  {
    calls[i].RefreshCall? && TakesEffect(Replay(OpsOf(sha, ttl, calls[..i])), sha, calls[i])
  }

  lemma {:induction false} OpsOfPrefix(sha: string -> string, ttl: int, calls: seq<Call>, i: nat)
    requires i <= |calls|
    ensures OpsOf(sha, ttl, calls[..i]) <= OpsOf(sha, ttl, calls)
    decreases |calls| - i
  {
    if i < |calls| {
      OpsOfPrefix(sha, ttl, calls, i + 1);
      assert calls[..i + 1][..i] == calls[..i];
    } else {
      assert calls[..i] == calls;
    }
  }

  /** A call reaches the table with an effective operation exactly when it takes effect: a login adds a token of
      the user, a refresh spends a token and adds one, a logout ends one. Any other call leaves the table as it is. */
  lemma CallActsIff(t: Table, sha: string -> string, ttl: int, c: Call)
    ensures var op, after := OpOf(sha, ttl, c), After(t, OpOf(sha, ttl, c));
            && (TakesEffect(t, sha, c) <==> op.Some? && Effective(t, op.value))
            && (!TakesEffect(t, sha, c) ==> after == t)
            && (TakesEffect(t, sha, c) ==>
                  match c
                  case IssueCall(user, e) =>
                    after == t[HashToken(sha, e.random.value) := Row(user, e.now + ttl, None, None)]
                  case RefreshCall(raw, e) =>
                    var old', new' := HashToken(sha, raw), HashToken(sha, e.random.value);
                    && after.Keys == t.Keys + {new'} && !Unrevoked(after, old')
                    && after[new'] == Row(t[old'].user, e.now + ttl, None, None)
                  case LogoutCall(raw, _, _) =>
                    after.Keys == t.Keys && !Unrevoked(after, HashToken(sha, raw)))
  {
    hide TrimSpace;
  }

  /** In any run of logins, refreshes and logouts, a raw refresh token works at most once, however it is padded. */
  lemma TokenRefreshesAtMostOnce(sha: string -> string, ttl: int, calls: seq<Call>, i: nat, j: nat)
    requires i < j < |calls| && Refreshes(sha, ttl, calls, i) && Refreshes(sha, ttl, calls, j)
    ensures TrimSpace(calls[i].raw) != TrimSpace(calls[j].raw)
  {
    hide Effective, Replay, TrimSpace;
    var first, second := OpsOf(sha, ttl, calls[..i]), OpsOf(sha, ttl, calls[..j]);
    var a, b := OpOf(sha, ttl, calls[i]).value, OpOf(sha, ttl, calls[j]).value;
    var history := second + [b];
    CallActsIff(Replay(first), sha, ttl, calls[i]);
    CallActsIff(Replay(second), sha, ttl, calls[j]);
    assert calls[..i + 1][..i] == calls[..i] && calls[..j][..i + 1] == calls[..i + 1];
    assert OpsOf(sha, ttl, calls[..i + 1]) == first + [a];
    OpsOfPrefix(sha, ttl, calls[..j], i + 1);
    assert history[|first|] == a && history[..|first|] == first && history[..|second|] == second;
    RotatesAtMostOnce(history, |first|, |second|);
  }

  /** A refresh, whatever it returns, spends a usable token if and only if its rotation took effect: a raw
      token was drawn, its hash was free, and the transaction was not rolled back. */
  lemma RefreshSpendsTokenIff(t: Table, sha: string -> string, ttl: int, raw: string, e: Environment)
    requires TrimSpace(raw) != "" && Usable(t, HashToken(sha, raw), e.now)
    ensures var h := HashToken(sha, raw);
            var after := After(t, OpOf(sha, ttl, RefreshCall(raw, e)));
            var rotated := e.random.Some? && HashToken(sha, e.random.value) !in t && e.outcome != RolledBack;
            && (!Usable(after, h, e.now) <==> rotated)
            && (!rotated ==> after == t)
  {
    hide TrimSpace;
  }

  /** When the rotation commits but a later step fails, the caller holds no usable token of the session:
      the old one is spent and the new one was never handed out. */
  lemma LateFailureLosesTheSession(t: Table, sha: string -> string, ttl: int, raw: string, e: Environment)
    requires TakesEffect(t, sha, RefreshCall(raw, e))
    requires (!e.userFound || !e.issued) && e.outcome == Acked
    ensures var t' := After(t, OpOf(sha, ttl, RefreshCall(raw, e)));
            && !Unrevoked(t', HashToken(sha, raw))
            && Unrevoked(t', HashToken(sha, e.random.value))
            && t'[HashToken(sha, raw)].replacedBy == Some(HashToken(sha, e.random.value))
  {
    hide TrimSpace;
  }

  /** With a collision-free hash, refreshing or logging out one token leaves the row of every other one alone. */
  lemma OtherTokensUnaffected(t: Table, sha: string -> string, ttl: int, c: Call, raw: string)
    requires forall x, y :: sha(x) == sha(y) ==> x == y
    requires !c.IssueCall? && TrimSpace(c.raw) != TrimSpace(raw) && HashToken(sha, raw) in t
    ensures var t' := After(t, OpOf(sha, ttl, c));
            HashToken(sha, raw) in t' && t'[HashToken(sha, raw)] == t[HashToken(sha, raw)]
  {
    hide TrimSpace;
  }

  // ------------------------------------------------------------ how long a token works

  /** Call `i` put a new token into the table: an effective login or an effective refresh. */
  predicate HandsOut(sha: string -> string, ttl: int, calls: seq<Call>, i: nat)
    requires i < |calls|
  {
    !calls[i].LogoutCall? && TakesEffect(Replay(OpsOf(sha, ttl, calls[..i])), sha, calls[i])
  }

  /** No call from `n` on effectively refreshes or logs out the token with hash `h`. */
  ghost predicate Unused(sha: string -> string, ttl: int, calls: seq<Call>, n: nat, h: string) {
    forall k | n <= k < |calls| && OpOf(sha, ttl, calls[k]).Some? ::
      !Spends(Replay(OpsOf(sha, ttl, calls[..k])), OpOf(sha, ttl, calls[k]).value, h)
  }

  lemma OpsNext(sha: string -> string, ttl: int, calls: seq<Call>, i: nat)
    requires i < |calls|
    ensures var op := OpOf(sha, ttl, calls[i]);
            OpsOf(sha, ttl, calls[..i + 1]) == OpsOf(sha, ttl, calls[..i]) + (if op.None? then [] else [op.value])
  {
    hide OpOf;
    assert calls[..i + 1][..i] == calls[..i];
  }

  /** A run of calls that does not use a token is a run of operations that does not spend it. */
  lemma {:induction false} UnusedIsUnspent(sha: string -> string, ttl: int, calls: seq<Call>, n: nat, h: string)
    requires n <= |calls| && Unused(sha, ttl, calls, n, h)
    ensures |OpsOf(sha, ttl, calls[..n])| <= |OpsOf(sha, ttl, calls)|
    ensures UnspentSince(OpsOf(sha, ttl, calls), |OpsOf(sha, ttl, calls[..n])|, h)
  {
    hide OpOf, Spends, Replay;
    if n == |calls| {
      assert calls[..n] == calls;
    } else {
      var front := calls[..|calls| - 1];
      var m, before, all := |OpsOf(sha, ttl, calls[..n])|, OpsOf(sha, ttl, front), OpsOf(sha, ttl, calls);
      forall k | n <= k < |front| && OpOf(sha, ttl, front[k]).Some?
        ensures !Spends(Replay(OpsOf(sha, ttl, front[..k])), OpOf(sha, ttl, front[k]).value, h)
      {
        assert front[..k] == calls[..k] && front[k] == calls[k];
      }
      assert front[..n] == calls[..n];
      UnusedIsUnspent(sha, ttl, front, n, h);
      OpsNext(sha, ttl, calls, |calls| - 1);
      assert calls[..|calls|] == calls;
      forall k | m <= k < |all| ensures !Spends(Replay(all[..k]), all[k], h) {
        assert all[..k] == before[..k] && (k < |before| ==> all[k] == before[k]);
        assert before[..|before|] == before;
      }
    }
  }

  /** A token handed out at time `n`, by a login or a refresh, can be refreshed in every later state exactly until
      `n + ttl`, as long as no effective refresh or logout of it came in between. */
  lemma TokenWorksUntil(sha: string -> string, ttl: int, calls: seq<Call>, i: nat, at: int)
    requires i < |calls| && HandsOut(sha, ttl, calls, i)
    requires calls[i].env.random.Some? && Unused(sha, ttl, calls, i + 1, sha(TrimSpace(calls[i].env.random.value)))
    ensures Usable(Replay(OpsOf(sha, ttl, calls)), sha(TrimSpace(calls[i].env.random.value)), at)
       <==> at < calls[i].env.now + ttl
  {
    hide TrimSpace, Replay, Effective, Usable, Unused;
    var h := sha(TrimSpace(calls[i].env.random.value));
    var before, history := OpsOf(sha, ttl, calls[..i]), OpsOf(sha, ttl, calls);
    CallActsIff(Replay(before), sha, ttl, calls[i]);
    OpsNext(sha, ttl, calls, i);
    OpsOfPrefix(sha, ttl, calls, i + 1);
    UnusedIsUnspent(sha, ttl, calls, i + 1, h);
    assert history[|before|] == OpOf(sha, ttl, calls[i]).value && history[..|before|] == before;
    NewTokenIsUsableUntil(history, |before|, at);
  }
}
