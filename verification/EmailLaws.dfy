/**
  What makes an account's address verified, its address change and its password be replaced
  (web/lib/email-ownership.ts:40-166): a link issued to that address, over every interleaving; and what each
  transaction does alone.
*/
module EmailLaws {
  import opened Common
  import opened EmailTokens
  import opened EmailTokenRuns
  import opened EmailStore

  // ----- a link, and what its transaction may do -----

  /** A link of the account that works: for the purpose, never used, not expired. */
  predicate Works(a: Account, id: TokenId, p: Purpose, now: int) {
    id in a.tokens && a.tokens[id].purpose == p && a.tokens[id].used == false && now < a.tokens[id].expiresAt
  }

  /** The transaction opens this link at this time. */
  predicate Opens(op: Op, id: TokenId, now: int) {
    match op
    case VerifyEmail(token, _, at) => token == id && at == now
    case ResetPassword(token, _, at) => token == id && at == now
    case _ => false
  }

  /** The address is verified by a link to it: of the account's own address, of its new one, or to reset its password. */
  ghost predicate ProvenBy(a: Account, email: Email, op: Op, id: TokenId, now: int) {
    && Opens(op, id, now) && id in a.tokens && a.tokens[id].email == email
    && match op
       case VerifyEmail(_, taken, _) =>
         (Works(a, id, ToVerify, now) && email == a.email) || (Works(a, id, ToChange, now) && !taken)
       case ResetPassword(_, _, _) => Works(a, id, ToReset, now) && email == a.email
       case _ => false
  }

  ghost predicate Proven(a: Account, email: Email, op: Op) {
    exists id, now :: ProvenBy(a, email, op, id, now)
  }

  /** The password is replaced by a reset link to the account's address, by the one its transaction brings. */
  ghost predicate Replaced(a: Account, op: Op, secret: Secret) {
    op.ResetPassword? && op.secret == secret && Works(a, op.token, ToReset, op.now) && a.tokens[op.token].email == a.email
  }

  /** What a transaction has written of the account's row is what its link lets it. */
  ghost predicate Earned(t: Tx, a: Account)
    requires t.work.Some?
  {
    var w := t.work.value;
    && ((w.email == a.email && w.verified == a.verified) || (w.verified && Proven(a, w.email, t.op)))
    && (w.secret == a.secret || Replaced(a, t.op, w.secret))
  }

  /** And what it has consumed is the link it opens, while that works. */
  ghost predicate ConsumesItsOwn(t: Tx, a: Account)
    requires t.work.Some?
  {
    var w := t.work.value;
    && (t.pc == 0 ==> w.tokens == a.tokens && w.email == a.email && w.consumed == None)
    && (w.consumed.Some? ==>
          && (t.op.VerifyEmail? || t.op.ResetPassword?) && w.consumed.value == t.op.token
          && t.op.token in a.tokens && t.op.token in w.tokens && w.tokens[t.op.token].email == a.tokens[t.op.token].email
          && w.tokens[t.op.token].purpose == a.tokens[t.op.token].purpose
          && (t.op.VerifyEmail? ==> Works(a, t.op.token, ToVerify, t.op.now) || Works(a, t.op.token, ToChange, t.op.now))
          && (t.op.ResetPassword? ==> Works(a, t.op.token, ToReset, t.op.now)))
    && (t.op.ResetPassword? ==> w.email == a.email)
    && (t.op.VerifyEmail? && t.pc <= 1 ==> w.email == a.email)
  }

  lemma VerifyingEarns(t: Tx, a: Account)
    requires t.work.Some? && !Finished(t) && t.op.VerifyEmail? && Earned(t, a) && ConsumesItsOwn(t, a)
    ensures Earned(Next(t, a), a) && ConsumesItsOwn(Next(t, a), a)
  {
    var w' := Next(t, a).work.value;
    if t.pc == 1 && !Next(t, a).stopped {
      assert ProvenBy(a, w'.email, t.op, t.op.token, t.op.now);
    }
  }

  lemma ResettingEarns(t: Tx, a: Account)
    requires t.work.Some? && !Finished(t) && t.op.ResetPassword? && Earned(t, a) && ConsumesItsOwn(t, a)
    ensures Earned(Next(t, a), a) && ConsumesItsOwn(Next(t, a), a)
  {
    var w' := Next(t, a).work.value;
    if t.pc == 1 && !Next(t, a).stopped {
      assert ProvenBy(a, w'.email, t.op, t.op.token, t.op.now);
    }
  }

  lemma OthersEarn(t: Tx, a: Account)
    requires t.work.Some? && !Finished(t) && !t.op.VerifyEmail? && !t.op.ResetPassword?
    requires Earned(t, a) && ConsumesItsOwn(t, a)
    ensures Earned(Next(t, a), a) && ConsumesItsOwn(Next(t, a), a)
  {
  }

  // ----- the links there are -----

  /** The transaction sends this link, for a day or, to reset a password, half an hour. */
  predicate Sends(op: Op, id: TokenId, link: Token) {
    match op
    case SendVerification(email, i, now) => id == i && link.(used := false) == Token(ToVerify, email, now + 86400, false)
    case RequestReset(email, i, now) => id == i && link.(used := false) == Token(ToReset, email, now + 1800, false)
    case RequestChange(email, _, _, i, now) => id == i && link.(used := false) == Token(ToChange, email, now + 86400, false)
    case _ => false
  }

  /** Every link is one there was, or the one the transaction sends. */
  ghost predicate AddsItsOwn(t: Tx, a: Account)
    requires t.work.Some?
  {
    var tokens := t.work.value.tokens;
    forall i :: i in tokens ==>
      if i in a.tokens then tokens[i] == a.tokens[i].(used := tokens[i].used) else Sends(t.op, i, tokens[i])
  }

  lemma StatementAdds(t: Tx, a: Account)
    requires t.work.Some? && !Finished(t) && AddsItsOwn(t, a) && Drawn(t.op) !! a.tokens.Keys
    ensures AddsItsOwn(Next(t, a), a)
  {
  }

  // ----- every interleaving -----

  ghost predicate HolderEarned(s: State) {
    s.holder.Some? && s.holder.value in s.txs && s.txs[s.holder.value].work.Some? ==>
      var t := s.txs[s.holder.value];
      Earned(t, s.account) && ConsumesItsOwn(t, s.account) && AddsItsOwn(t, s.account)
  }

  lemma StatementEarns(t: Tx, a: Account)
    requires t.work.Some? && !Finished(t) && Drawn(t.op) !! a.tokens.Keys
    requires Earned(t, a) && ConsumesItsOwn(t, a) && AddsItsOwn(t, a)
    ensures Earned(Next(t, a), a) && ConsumesItsOwn(Next(t, a), a) && AddsItsOwn(Next(t, a), a)
  {
    StatementAdds(t, a);
    if t.op.VerifyEmail? { VerifyingEarns(t, a); }
    else if t.op.ResetPassword? { ResettingEarns(t, a); }
    else { OthersEarn(t, a); }
  }

  lemma RunEarns(s: State, x: TxId)
    requires Inv(s) && HolderEarned(s) && Enabled(s, Run(x))
    ensures HolderEarned(Apply(s, Run(x)))
  {
    StatementEarns(s.txs[x], s.account);
  }

  lemma LockEarns(s: State, x: TxId)
    requires Inv(s) && Enabled(s, Lock(x))
    ensures HolderEarned(Apply(s, Lock(x)))
  {
  }

  /** Sessions come and go outside the lock; what the holder may write does not depend on them. */
  lemma OutsideEarns(s: State, step: Step)
    requires Inv(s) && HolderEarned(s) && Enabled(s, step) && (step.OtherSignIn? || step.SignOut?)
    ensures HolderEarned(Apply(s, step))
  {
    if s.holder.Some? && s.txs[s.holder.value].work.Some? {
      EarnedAlike(s.txs[s.holder.value], s.account, Apply(s, step).account);
    }
  }

  lemma EarnedAlike(t: Tx, a: Account, b: Account)
    requires t.work.Some? && Earned(t, a) && b.(sessions := a.sessions) == a
    ensures Earned(t, b)
  {
    if Proven(a, t.work.value.email, t.op) {
      var id, now :| ProvenBy(a, t.work.value.email, t.op, id, now);
      assert ProvenBy(b, t.work.value.email, t.op, id, now);
    }
  }

  lemma StepEarns(s: State, step: Step)
    requires Inv(s) && HolderEarned(s) && Enabled(s, step)
    ensures HolderEarned(Apply(s, step))
  {
    match step
    case Run(x) => RunEarns(s, x);
    case Lock(x) => LockEarns(s, x);
    case OtherSignIn(_) => OutsideEarns(s, step);
    case SignOut(_) => OutsideEarns(s, step);
    case Start(_, _) =>
    case Commit(_) =>
    case Abort(_) =>
  }

  lemma {:induction false} HistoriesEarn(states: seq<State>, steps: seq<Step>, n: nat)
    requires History(states, steps) && n < |states|
    ensures Inv(states[n]) && HolderEarned(states[n])
  {
    EveryInterleavingKeeps(states, steps, n);
    if n > 0 {
      HistoriesEarn(states, steps, n - 1);
      assert Steps(states, steps, n - 1);
      StepEarns(states[n - 1], steps[n - 1]);
    }
  }

  /** The link was there at the start, or a transaction that committed before step n sent it. */
  ghost predicate Sent(states: seq<State>, steps: seq<Step>, n: nat, id: TokenId, link: Token)
    requires |states| == |steps| + 1 && n <= |steps|
  {
    || (id in states[0].account.tokens && states[0].account.tokens[id] == link.(used := states[0].account.tokens[id].used))
    || exists j :: 0 <= j < n && steps[j].Commit? && steps[j].x in states[j].txs && Sends(states[j].txs[steps[j].x].op, id, link)
  }

  lemma StillSent(states: seq<State>, steps: seq<Step>, n: nat, id: TokenId, link: Token, used: bool)
    requires |states| == |steps| + 1 && n < |steps| && Sent(states, steps, n, id, link)
    ensures Sent(states, steps, n + 1, id, link.(used := used))
  {
    if exists j :: 0 <= j < n && steps[j].Commit? && steps[j].x in states[j].txs && Sends(states[j].txs[steps[j].x].op, id, link) {
      var j :| 0 <= j < n && steps[j].Commit? && steps[j].x in states[j].txs && Sends(states[j].txs[steps[j].x].op, id, link);
      assert Sends(states[j].txs[steps[j].x].op, id, link.(used := used));
    }
  }

  lemma {:induction false} LinksAreSent(states: seq<State>, steps: seq<Step>, n: nat, id: TokenId)
    requires History(states, steps) && n < |states| && id in states[n].account.tokens
    ensures Sent(states, steps, n, id, states[n].account.tokens[id])
  {
    if n > 0 {
      HistoriesEarn(states, steps, n - 1);
      assert Steps(states, steps, n - 1);
      ThisStepSends(states[n - 1], steps[n - 1], id);
      var before := states[n - 1].account.tokens;
      if id in before {
        LinksAreSent(states, steps, n - 1, id);
        StillSent(states, steps, n - 1, id, before[id], states[n].account.tokens[id].used);
      }
    }
  }

  lemma ThisStepSends(s: State, step: Step, id: TokenId)
    requires Inv(s) && HolderEarned(s) && Enabled(s, step) && id in Apply(s, step).account.tokens
    ensures
      var link := Apply(s, step).account.tokens[id];
      if id in s.account.tokens then link == s.account.tokens[id].(used := link.used)
      else step.Commit? && Sends(s.txs[step.x].op, id, link)
  {
  }

  lemma ACommitEarns(s: State, step: Step)
    requires Inv(s) && HolderEarned(s) && Enabled(s, step)
    ensures
      var a, a' := s.account, Apply(s, step).account;
      step.Commit? || (a'.email == a.email && a'.verified == a.verified && a'.secret == a.secret)
    ensures step.Commit? ==>
      var a, a', op := s.account, Apply(s, step).account, s.txs[step.x].op;
      && ((a'.email == a.email && a'.verified == a.verified) || (a'.verified && Proven(a, a'.email, op)))
      && (a'.secret == a.secret || Replaced(a, op, a'.secret))
  {
  }

  /**
    In every interleaving: an address becomes the account's, or verified, only when a transaction commits that opened a
    working link to that very address, one there was or one sent to it before; and it does not become unverified.
  */
  lemma OnlyItsLinkVerifiesAnAddress(states: seq<State>, steps: seq<Step>, i: nat)
    requires History(states, steps) && i < |steps|
    ensures
      var a, a' := states[i].account, states[i + 1].account;
      && (a.verified ==> a'.verified)
      && (a'.email != a.email || a'.verified != a.verified ==>
            && a'.verified && steps[i].Commit? && steps[i].x in states[i].txs
            && exists id, now ::
                 && ProvenBy(a, a'.email, states[i].txs[steps[i].x].op, id, now)
                 && Sent(states, steps, i, id, a.tokens[id]))
  {
    HistoriesEarn(states, steps, i);
    assert Steps(states, steps, i);
    ACommitEarns(states[i], steps[i]);
    var a, a' := states[i].account, states[i + 1].account;
    if a'.email != a.email || a'.verified != a.verified {
      var op := states[i].txs[steps[i].x].op;
      var id, now :| ProvenBy(a, a'.email, op, id, now);
      LinksAreSent(states, steps, i, id);
    }
  }

  /** And its password is replaced only by a transaction that opened a working reset link to the account's address. */
  lemma OnlyAResetLinkReplacesThePassword(states: seq<State>, steps: seq<Step>, i: nat)
    requires History(states, steps) && i < |steps| && states[i + 1].account.secret != states[i].account.secret
    ensures
      && steps[i].Commit? && steps[i].x in states[i].txs
      && var op := states[i].txs[steps[i].x].op;
         && Replaced(states[i].account, op, states[i + 1].account.secret)
         && Sent(states, steps, i, op.token, states[i].account.tokens[op.token])
  {
    HistoriesEarn(states, steps, i);
    assert Steps(states, steps, i);
    ACommitEarns(states[i], steps[i]);
    LinksAreSent(states, steps, i, states[i].txs[steps[i].x].op.token);
  }

  // ----- each transaction alone -----

  /** Those links used up. */
  predicate UsesUp(tokens: map<TokenId, Token>, tokens': map<TokenId, Token>, p: Purpose, id: TokenId, link: Token) {
    && tokens'.Keys == tokens.Keys + {id} && tokens'[id] == link
    && forall i :: i in tokens && i != id ==> tokens'[i] == if tokens[i].purpose == p then tokens[i].(used := true) else tokens[i]
  }

  /** A new link to the address, for a day or half an hour; the earlier ones of its purpose stop working. */
  lemma SendingALink(a: Account, to': Email, id: TokenId, now: int)
    requires id !in a.tokens
    ensures
      var (v, sent) := Whole(a, EmailTokens.SendVerification(to', id, now));
      sent && v == a.(tokens := v.tokens) && UsesUp(a.tokens, v.tokens, ToVerify, id, Token(ToVerify, to', now + 86400, false))
    ensures
      var (r, sent) := Whole(a, EmailTokens.RequestReset(to', id, now));
      sent && r == a.(tokens := r.tokens) && UsesUp(a.tokens, r.tokens, ToReset, id, Token(ToReset, to', now + 1800, false))
  {
    IssueProgram(a, Begin(a), ToVerify, to', now + VERIFY_TTL_S, id);
    IssueProgram(a, Begin(a), ToReset, to', now + RESET_TTL_S, id);
  }

  /** A working session, or none asked for, gets a link to an address that is new and nobody's; else nothing happens. */
  lemma AskingForAChange(a: Account, to': Email, asker: Option<SessionId>, taken: bool, id: TokenId, now: int)
    requires id !in a.tokens
    ensures
      var (c, done) := Whole(a, EmailTokens.RequestChange(to', asker, taken, id, now));
      && (done <==> (asker == None || (asker.value in a.sessions && a.sessions[asker.value].live)) && to' != a.email && !taken)
      && (!done ==> c == a)
      && (done ==> c == a.(tokens := c.tokens) && UsesUp(a.tokens, c.tokens, ToChange, id, Token(ToChange, to', now + 86400, false)))
  {
    ChangeProgram(a, to', asker, taken, id, now);
  }

  lemma VerifyProgram(a: Account, token: TokenId, taken: bool, now: int)
    ensures
      var works := Works(a, token, ToVerify, now) || Works(a, token, ToChange, now);
      var used := if token in a.tokens then a.tokens[token := a.tokens[token].(used := true)] else a.tokens;
      Whole(a, EmailTokens.VerifyEmail(token, taken, now)) ==
        if !works then (a, false)
        else if a.tokens[token].purpose == ToVerify then
          (if a.tokens[token].email == a.email then (a.(verified := true, tokens := used), true) else (a.(tokens := used), false))
        else if taken then (a.(tokens := used), false)
        else (a.(email := a.tokens[token].email, verified := true, tokens := used), true)
  {
    var w := Begin(a);
    var first, second := Consume(token, {ToVerify, ToChange}, now), Confirm(taken);
    var w1 := Exec(first, w, a.sessions).0;
    assert Program(EmailTokens.VerifyEmail(token, taken, now)) == [first] + ([second] + []);
    ExecuteOne(first, [second] + [], w, a.sessions);
    ExecuteOne(second, [], w1, a.sessions);
    NoSessionChange(a, w);
    NoSessionChange(a, w1);
    NoSessionChange(a, Exec(second, w1, a.sessions).0);
  }

  /**
    Opening a working link to the account's address verifies it; one to a new address makes it the account's, unless
    another account has it by then. A link that works is used up either way, and one that does not changes nothing.
  */
  lemma OpeningALink(a: Account, token: TokenId, taken: bool, now: int)
    ensures
      var (v, done) := Whole(a, EmailTokens.VerifyEmail(token, taken, now));
      var own, other := Works(a, token, ToVerify, now), Works(a, token, ToChange, now);
      && (done <==> (own && a.tokens[token].email == a.email) || (other && !taken))
      && (done ==> v.verified && v.email == a.tokens[token].email) && (!done ==> v.verified == a.verified && v.email == a.email)
      && v.secret == a.secret && v.sessions == a.sessions
      && v.tokens == if own || other then a.tokens[token := a.tokens[token].(used := true)] else a.tokens
  {
    VerifyProgram(a, token, taken, now);
  }

  /**
    A working reset link to the account's address replaces the password, verifies the address, uses up every link and
    ends every session; to another address it is only used up; and a link that does not work changes nothing.
  */
  lemma OpeningAResetLink(a: Account, token: TokenId, next: Secret, now: int)
    ensures
      var (r, done) := Whole(a, EmailTokens.ResetPassword(token, next, now));
      && (done <==> Works(a, token, ToReset, now) && a.tokens[token].email == a.email)
      && (done ==> && r.secret == next && r.verified && r.email == a.email
                   && r.tokens.Keys == a.tokens.Keys && (forall i :: i in a.tokens ==> r.tokens[i] == a.tokens[i].(used := true))
                   && r.sessions.Keys == a.sessions.Keys
                   && forall s :: s in a.sessions ==> r.sessions[s] == a.sessions[s].(live := false))
      && (!done && Works(a, token, ToReset, now) ==> r == a.(tokens := a.tokens[token := a.tokens[token].(used := true)]))
      && (!done && !Works(a, token, ToReset, now) ==> r == a)
  {
    ResetProgram(a, token, next, now);
  }

  /** A sign-in that checked the secret the account has opens one session; any other opens none. */
  lemma SigningIn(a: Account, checked: Secret, id: SessionId)
    requires id !in a.sessions
    ensures
      var (b, done) := Whole(a, SignIn(checked, id));
      && (done <==> checked == a.secret)
      && b == if done then a.(sessions := a.sessions[id := Session(true, true)]) else a
  {
    var w := Begin(a);
    var first, second := CheckSecret(checked), OpenSession(id);
    assert Program(SignIn(checked, id)) == [first] + ([second] + []);
    ExecuteOne(first, [second] + [], w, a.sessions);
    ExecuteOne(second, [], w, a.sessions);
    NoSessionChange(a, w);
    assert Installed(a, w.(started := w.started + {id})).sessions == a.sessions[id := Session(true, true)];
  }
}
