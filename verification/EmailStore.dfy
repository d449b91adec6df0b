/** The transactions' own steps (web/lib/email-ownership.ts:39-166, web/lib/auth-db.ts:22-31), proved to be EmailTokens' programs. */
module EmailStore {
  import opened Common
  import opened EmailTokens

  /** A whole transaction with nothing between its statements: the account after it, and whether it went through. */
  function Execute(stmts: seq<Stmt>, w: Work, sessions: map<SessionId, Session>): (Work, bool) {
    if stmts == [] then (w, true)
    else
      var (w', go) := Exec(stmts[0], w, sessions);
      if go then Execute(stmts[1..], w', sessions) else (w', false)
  }

  function Whole(a: Account, op: Op): (Account, bool) {
    var (w, done) := Execute(Program(op), Begin(a), a.sessions);
    (Installed(a, w), done)
  }

  lemma ExecuteOne(s: Stmt, rest: seq<Stmt>, w: Work, sessions: map<SessionId, Session>)
    ensures Execute([s] + rest, w, sessions) ==
      var (w', go) := Exec(s, w, sessions);
      if go then Execute(rest, w', sessions) else (w', false)
  {
  }

  class Accounts {
    var email: Email
    var secret: Secret
    var verified: bool
    var tokens: map<TokenId, Token>
    var sessions: map<SessionId, Session>

    constructor (a: Account)
      ensures State() == a
    {
      email, secret, verified, tokens, sessions := a.email, a.secret, a.verified, a.tokens, a.sessions;
    }

    function State(): Account
      reads this
    {
      Account(email, secret, verified, tokens, sessions)
    }

    /** A new link; the unused ones of its purpose stop working. */
    method Issue(purpose: Purpose, to': Email, ttl: int, id: TokenId, now: int)
      modifies `tokens
      ensures tokens == UsedUp(old(tokens), {purpose})[id := Token(purpose, to', now + ttl, false)]
    {
      tokens := map i | i in tokens :: if tokens[i].purpose == purpose then tokens[i].(used := true) else tokens[i];
      assert tokens == UsedUp(old(tokens), {purpose});
      tokens := tokens[id := Token(purpose, to', now + ttl, false)];
    }

    /** The link's row, used up, when it works for one of the purposes now. */
    method ConsumeToken(purposes: set<Purpose>, token: TokenId, now: int) returns (row: Option<Token>)
      modifies `tokens
      ensures Usable(old(tokens), token, purposes, now) ==>
        row == Some(old(tokens)[token].(used := true)) && tokens == old(tokens)[token := row.value]
      ensures !Usable(old(tokens), token, purposes, now) ==> row.None? && tokens == old(tokens)
    {
      row := None;
      if token in tokens && tokens[token].purpose in purposes && !tokens[token].used && tokens[token].expiresAt > now {
        tokens := tokens[token := tokens[token].(used := true)];
        row := Some(tokens[token]);
      }
    }

    /** A verification link for the account's own address, unless it is verified. */
    method SendVerification(id: TokenId, now: int) returns (sent: bool)
      modifies `tokens
      ensures sent == !old(verified)
      ensures sent ==> (State(), true) == Whole(old(State()), EmailTokens.SendVerification(old(email), id, now))
      ensures !sent ==> State() == old(State())
    {
      if verified { return false; }
      IssueProgram(State(), Begin(State()), ToVerify, email, now + VERIFY_TTL_S, id);
      Issue(ToVerify, email, VERIFY_TTL_S, id, now);
      return true;
    }

    /** A reset link, for an account that does not sign in with Google. */
    method RequestReset(google: bool, id: TokenId, now: int) returns (sent: bool)
      modifies `tokens
      ensures sent == !google
      ensures sent ==> (State(), true) == Whole(old(State()), EmailTokens.RequestReset(email, id, now))
      ensures !sent ==> State() == old(State())
    {
      if google { return false; }
      IssueProgram(State(), Begin(State()), ToReset, email, now + RESET_TTL_S, id);
      Issue(ToReset, email, RESET_TTL_S, id, now);
      return true;
    }

    /** A link to a new address, from a session that works. */
    method RequestEmailChange(newEmail: Email, asker: Option<SessionId>, taken: bool, id: TokenId, now: int) returns (ok: bool)
      modifies `tokens
      ensures (State(), ok) == Whole(old(State()), EmailTokens.RequestChange(newEmail, asker, taken, id, now))
    {
      ChangeProgram(State(), newEmail, asker, taken, id, now);
      if asker.Some? && !(asker.value in sessions && sessions[asker.value].live) { return false; }
      if email == newEmail || taken { return false; }
      Issue(ToChange, newEmail, VERIFY_TTL_S, id, now);
      return true;
    }

    method VerifyEmail(token: TokenId, taken: bool, now: int) returns (ok: bool)
      modifies this
      ensures (State(), ok) == Whole(old(State()), EmailTokens.VerifyEmail(token, taken, now))
    {
      ghost var op := EmailTokens.VerifyEmail(token, taken, now);
      ghost var before := State();
      ghost var w := Begin(before);
      assert Program(op) == [Consume(token, {ToVerify, ToChange}, now)] + ([Confirm(taken)] + []);
      ExecuteOne(Consume(token, {ToVerify, ToChange}, now), [Confirm(taken)] + [], w, sessions);
      ExecuteOne(Confirm(taken), [], Exec(Consume(token, {ToVerify, ToChange}, now), w, sessions).0, sessions);
      NoSessionChange(before, w);
      var row := ConsumeToken({ToVerify, ToChange}, token, now);
      if row.None? { return false; }
      if row.value.purpose == ToVerify {
        ok := email == row.value.email;
        if ok { verified := true; }
      } else if taken {
        ok := false;
      } else {
        email, verified, ok := row.value.email, true, true;
      }
      NoSessionChange(before, Execute(Program(op), Begin(before), before.sessions).0);
    }

    /** Sets the password, uses up every link of the account and ends every session of it. */
    method ResetPassword(token: TokenId, next: Secret, now: int) returns (ok: bool)
      modifies this
      ensures (State(), ok) == Whole(old(State()), EmailTokens.ResetPassword(token, next, now))
    {
      ghost var op := EmailTokens.ResetPassword(token, next, now);
      ghost var before := State();
      ResetProgram(before, token, next, now);
      var row := ConsumeToken({ToReset}, token, now);
      if row.None? { return false; }
      if email != row.value.email { return false; }
      secret, verified := next, true;
      tokens := map i | i in tokens :: tokens[i].(used := true);
      sessions := map s | s in sessions :: sessions[s].(live := false);
      return true;
    }

    method CreatePasswordSession(checked: Secret, id: SessionId) returns (ok: bool)
      requires id !in sessions
      modifies `sessions
      ensures (State(), ok) == Whole(old(State()), SignIn(checked, id))
    {
      ghost var before := State();
      ghost var w := Begin(before);
      assert Program(SignIn(checked, id)) == [CheckSecret(checked)] + ([OpenSession(id)] + []);
      ExecuteOne(CheckSecret(checked), [OpenSession(id)] + [], w, sessions);
      ExecuteOne(OpenSession(id), [], w, sessions);
      NoSessionChange(before, w);
      if checked != secret { return false; }
      sessions := sessions[id := Session(true, true)];
      assert sessions == Installed(before, w.(started := w.started + {id})).sessions;
      return true;
    }
  }

  /** Writes that end and open no session leave the sessions as they are. */
  lemma NoSessionChange(a: Account, w: Work)
    requires w.revoked == {} && w.started == {}
    ensures Installed(a, w) == Account(w.email, w.secret, w.verified, w.tokens, a.sessions)
  {
  }

  lemma EveryPurpose(tokens: map<TokenId, Token>)
    ensures UsedUp(tokens, {ToVerify, ToReset, ToChange}) == map i | i in tokens :: tokens[i].(used := true)
  {
    forall i | i in tokens ensures tokens[i].purpose in {ToVerify, ToReset, ToChange} {
      match tokens[i].purpose
      case ToVerify =>
      case ToReset =>
      case ToChange =>
    }
  }

  /** The last three statements of a reset, on the link's own address. */
  lemma ResetRest(a: Account, w: Work, next: Secret)
    requires w.consumed.Some? && w.consumed.value in w.tokens && w.tokens[w.consumed.value].email == w.email
    requires w.revoked == {} && w.started == {}
    ensures
      var (end, done) := Execute([SetSecret(next), UseUpAll, RevokeAll], w, a.sessions);
      && done
      && Installed(a, end) == Account(w.email, next, true, map i | i in w.tokens :: w.tokens[i].(used := true),
                                      map s | s in a.sessions :: a.sessions[s].(live := false))
  {
    var w2 := Exec(SetSecret(next), w, a.sessions).0;
    var w3 := Exec(UseUpAll, w2, a.sessions).0;
    assert [SetSecret(next), UseUpAll, RevokeAll] == [SetSecret(next)] + ([UseUpAll] + ([RevokeAll] + []));
    ExecuteOne(SetSecret(next), [UseUpAll] + ([RevokeAll] + []), w, a.sessions);
    ExecuteOne(UseUpAll, [RevokeAll] + [], w2, a.sessions);
    ExecuteOne(RevokeAll, [], w3, a.sessions);
    EveryPurpose(w.tokens);
    var w4 := Exec(RevokeAll, w3, a.sessions).0;
    assert Installed(a, w4).sessions == map s | s in a.sessions :: a.sessions[s].(live := false);
  }

  /** What the four statements of a reset come to. */
  lemma ResetProgram(a: Account, token: TokenId, next: Secret, now: int)
    ensures
      var used := if token in a.tokens then a.tokens[token := a.tokens[token].(used := true)] else a.tokens;
      Whole(a, EmailTokens.ResetPassword(token, next, now)) ==
        if !Usable(a.tokens, token, {ToReset}, now) then (a, false)
        else if a.email != a.tokens[token].email then (a.(tokens := used), false)
        else (Account(a.email, next, true, map i | i in used :: used[i].(used := true),
                      map s | s in a.sessions :: a.sessions[s].(live := false)), true)
  {
    var w := Begin(a);
    var first := Consume(token, {ToReset}, now);
    var rest := [SetSecret(next), UseUpAll, RevokeAll];
    var w1 := Exec(first, w, a.sessions).0;
    assert Program(EmailTokens.ResetPassword(token, next, now)) == [first] + rest;
    ExecuteOne(first, rest, w, a.sessions);
    NoSessionChange(a, w1);
    if Usable(a.tokens, token, {ToReset}, now) {
      if a.email == a.tokens[token].email {
        ResetRest(a, w1, next);
      } else {
        assert rest == [SetSecret(next)] + [UseUpAll, RevokeAll];
        ExecuteOne(SetSecret(next), [UseUpAll, RevokeAll], w1, a.sessions);
      }
    }
  }

  /** What issuing a link comes to. */
  lemma IssueProgram(a: Account, w: Work, purpose: Purpose, to': Email, expiresAt: int, id: TokenId)
    requires w.revoked == {} && w.started == {}
    ensures
      var (end, done) := Execute([UseUp(purpose), Insert(id, purpose, to', expiresAt)], w, a.sessions);
      && done
      && Installed(a, end) == Account(w.email, w.secret, w.verified, UsedUp(w.tokens, {purpose})[id := Token(purpose, to', expiresAt, false)], a.sessions)
  {
    var first, second := UseUp(purpose), Insert(id, purpose, to', expiresAt);
    assert [first, second] == [first] + ([second] + []);
    ExecuteOne(first, [second] + [], w, a.sessions);
    var w1 := Exec(first, w, a.sessions).0;
    ExecuteOne(second, [], w1, a.sessions);
    NoSessionChange(a, Exec(second, w1, a.sessions).0);
  }

  /** What asking for a change of address comes to. */
  lemma ChangeProgram(a: Account, newEmail: Email, asker: Option<SessionId>, taken: bool, id: TokenId, now: int)
    ensures
      var (after, done) := Whole(a, EmailTokens.RequestChange(newEmail, asker, taken, id, now));
      var goes := (asker.Some? ==> asker.value in a.sessions && a.sessions[asker.value].live) && a.email != newEmail && !taken;
      && done == goes
      && after == if goes then a.(tokens := UsedUp(a.tokens, {ToChange})[id := Token(ToChange, newEmail, now + VERIFY_TTL_S, false)]) else a
  {
    var w := Begin(a);
    var first, second := CheckSession(asker), CheckNewEmail(newEmail, taken);
    var rest := [UseUp(ToChange), Insert(id, ToChange, newEmail, now + VERIFY_TTL_S)];
    assert Program(EmailTokens.RequestChange(newEmail, asker, taken, id, now)) == [first] + ([second] + rest);
    ExecuteOne(first, [second] + rest, w, a.sessions);
    ExecuteOne(second, rest, w, a.sessions);
    IssueProgram(a, w, ToChange, newEmail, now + VERIFY_TTL_S, id);
    NoSessionChange(a, w);
  }
}
