/** What every interleaving of the email-token transactions keeps, and what a recovery cuts off. */
module EmailTokenRuns {
  import opened Common
  import opened EmailTokens

  /** One transaction at most has the lock, and only it has written anything. */
  ghost predicate HolderMatches(s: State) {
    && (s.holder.Some? ==> s.holder.value in s.txs)
    && forall x :: x in s.txs ==>
         (s.txs[x].work.Some? <==> s.holder == Some(x)) && (s.txs[x].work.None? ==> s.txs[x].pc == 0 && !s.txs[x].stopped)
  }

  /** Ids are drawn once, and are not in the tables until their transaction commits. */
  ghost predicate IdsApart(s: State) {
    && s.account.tokens.Keys <= s.ids && s.account.sessions.Keys <= s.ids
    && (forall x :: x in s.txs ==> DrawnApart(s, s.txs[x].op))
    && (forall x, y :: x in s.txs && y in s.txs && x != y ==> Drawn(s.txs[x].op) !! Drawn(s.txs[y].op))
  }

  ghost predicate DrawnApart(s: State, op: Op) {
    Drawn(op) <= s.ids && Drawn(op) !! s.account.tokens.Keys && Drawn(op) !! s.account.sessions.Keys
  }

  ghost predicate HolderSound(s: State) {
    s.holder.Some? && s.holder.value in s.txs && s.txs[s.holder.value].work.Some? ==> WorkSound(s.txs[s.holder.value], s.account)
  }

  /** Each token is consumed at most once, and is used up then. */
  ghost predicate ConsumedOnce(s: State) {
    && (forall i, j :: 0 <= i < j < |s.consumed| ==> s.consumed[i] != s.consumed[j])
    && (forall i :: 0 <= i < |s.consumed| ==> s.consumed[i] in s.account.tokens && s.account.tokens[s.consumed[i]].used)
  }

  ghost predicate Inv(s: State) {
    HolderMatches(s) && IdsApart(s) && HolderSound(s) && ConsumedOnce(s) && OneUnused(s.account.tokens)
  }

  // ----- one statement -----

  /** Any statement of a program leaves the transaction's writes sound. */
  lemma StatementKeeps(t: Tx, a: Account)
    requires t.work.Some? && !Finished(t) && WorkSound(t, a) && Drawn(t.op) !! a.tokens.Keys
    ensures WorkSound(Next(t, a), a)
  {
    match t.op
    case SendVerification(_, _, _) => SendKeeps(t, a);
    case RequestReset(_, _, _) => AskKeeps(t, a);
    case RequestChange(_, _, _, _, _) => ChangeKeeps(t, a);
    case VerifyEmail(_, _, _) => if t.pc == 0 { ConsumeKeeps(t, a); } else { VerifyKeeps(t, a); }
    case ResetPassword(_, _, _) => if t.pc == 0 { ConsumeKeeps(t, a); } else { ResetKeeps(t, a); }
    case SignIn(_, _) => SignInKeeps(t, a);
  }

  lemma SendKeeps(t: Tx, a: Account)
    requires t.op.SendVerification? && t.work.Some? && !Finished(t) && WorkSound(t, a)
    ensures WorkSound(Next(t, a), a)
  {
  }

  lemma AskKeeps(t: Tx, a: Account)
    requires t.op.RequestReset? && t.work.Some? && !Finished(t) && WorkSound(t, a)
    ensures WorkSound(Next(t, a), a)
  {
  }

  lemma ChangeKeeps(t: Tx, a: Account)
    requires t.op.RequestChange? && t.work.Some? && !Finished(t) && WorkSound(t, a)
    ensures WorkSound(Next(t, a), a)
  {
  }

  lemma ConsumeKeeps(t: Tx, a: Account)
    requires (t.op.VerifyEmail? || t.op.ResetPassword?) && t.pc == 0 && t.work.Some? && !Finished(t) && WorkSound(t, a)
    ensures WorkSound(Next(t, a), a)
  {
  }

  lemma VerifyKeeps(t: Tx, a: Account)
    requires t.op.VerifyEmail? && t.pc > 0 && t.work.Some? && !Finished(t) && WorkSound(t, a)
    ensures WorkSound(Next(t, a), a)
  {
  }

  lemma ResetKeeps(t: Tx, a: Account)
    requires t.op.ResetPassword? && t.pc > 0 && t.work.Some? && !Finished(t) && WorkSound(t, a)
    ensures WorkSound(Next(t, a), a)
  {
  }

  lemma SignInKeeps(t: Tx, a: Account)
    requires t.op.SignIn? && t.work.Some? && !Finished(t) && WorkSound(t, a)
    ensures WorkSound(Next(t, a), a)
  {
  }

  // ----- one step of the machine -----

  lemma StartKeeps(s: State, x: TxId, op: Op)
    requires Inv(s) && Enabled(s, Start(x, op))
    ensures Inv(Apply(s, Start(x, op)))
  {
  }

  lemma LockKeeps(s: State, x: TxId)
    requires Inv(s) && Enabled(s, Lock(x))
    ensures Inv(Apply(s, Lock(x)))
  {
  }

  lemma RunKeeps(s: State, x: TxId)
    requires Inv(s) && Enabled(s, Run(x))
    ensures Inv(Apply(s, Run(x)))
  {
    StatementKeeps(s.txs[x], s.account);
  }

  lemma AbortKeeps(s: State, x: TxId)
    requires Inv(s) && Enabled(s, Abort(x))
    ensures Inv(Apply(s, Abort(x)))
  {
  }

  lemma CommitKeeps(s: State, x: TxId)
    requires Inv(s) && Enabled(s, Commit(x))
    ensures Inv(Apply(s, Commit(x)))
  {
  }

  /** Sessions opened or ended outside the lock leave the holder's writes sound. */
  lemma OutsideKeeps(s: State, step: Step)
    requires Inv(s) && Enabled(s, step) && (step.OtherSignIn? || step.SignOut?)
    ensures Inv(Apply(s, step))
  {
  }

  lemma StepKeeps(s: State, step: Step)
    requires Inv(s) && Enabled(s, step)
    ensures Inv(Apply(s, step))
  {
    match step
    case Start(x, op) => StartKeeps(s, x, op);
    case Lock(x) => LockKeeps(s, x);
    case Run(x) => RunKeeps(s, x);
    case Commit(x) => CommitKeeps(s, x);
    case Abort(x) => AbortKeeps(s, x);
    case _ => OutsideKeeps(s, step);
  }

  // ----- histories -----

  /** Any interleaving, from an account with no transaction under way. */
  ghost predicate History(states: seq<State>, steps: seq<Step>) {
    && |states| == |steps| + 1
    && states[0].txs == map[] && states[0].holder.None? && states[0].consumed == [] && OneUnused(states[0].account.tokens)
    && states[0].account.tokens.Keys + states[0].account.sessions.Keys <= states[0].ids
    && forall i :: 0 <= i < |steps| ==> Steps(states, steps, i)
  }

  ghost predicate Steps(states: seq<State>, steps: seq<Step>, i: nat)
    requires |states| == |steps| + 1 && i < |steps|
  {
    Enabled(states[i], steps[i]) && states[i + 1] == Apply(states[i], steps[i])
  }

  /**
    At every moment each token has been consumed at most once, and at most one token of each purpose is unused.
  */
  lemma {:induction false} EveryInterleavingKeeps(states: seq<State>, steps: seq<Step>, n: nat)
    requires History(states, steps) && n < |states|
    ensures Inv(states[n]) && ConsumedOnce(states[n]) && OneUnused(states[n].account.tokens)
  {
    if n > 0 {
      EveryInterleavingKeeps(states, steps, n - 1);
      assert Steps(states, steps, n - 1);
      StepKeeps(states[n - 1], steps[n - 1]);
    }
  }

  /** Between an earlier and a later state: used tokens stay used, dead sessions dead, and the log only grows. */
  ghost predicate Evolves(s: State, s': State) {
    && (forall i :: i in s.account.tokens ==> i in s'.account.tokens && (s.account.tokens[i].used ==> s'.account.tokens[i].used))
    && (forall x :: x in s.account.sessions ==> x in s'.account.sessions && (!s.account.sessions[x].live ==> !s'.account.sessions[x].live))
    && s.consumed <= s'.consumed
  }

  lemma StepEvolves(s: State, step: Step)
    requires Inv(s) && Enabled(s, step)
    ensures Evolves(s, Apply(s, step))
  {
  }

  lemma {:induction false} HistoriesEvolve(states: seq<State>, steps: seq<Step>, i: nat, j: nat)
    requires History(states, steps) && i <= j < |states|
    ensures Evolves(states[i], states[j])
    decreases j
  {
    if i < j {
      HistoriesEvolve(states, steps, i, j - 1);
      EveryInterleavingKeeps(states, steps, j - 1);
      assert Steps(states, steps, j - 1);
      StepEvolves(states[j - 1], steps[j - 1]);
    }
  }

  // ----- recovery -----

  /** The step commits a reset that went through. */
  predicate Recovers(s: State, step: Step) {
    step.Commit? && step.x in s.txs && s.txs[step.x].op.ResetPassword? && s.txs[step.x].work.Some? && s.txs[step.x].pc == 4
    && !s.txs[step.x].stopped
  }

  /** Once a recovery commits, no link issued before it is consumed by anything that commits later. */
  lemma RecoveryCutsOffLinks(states: seq<State>, steps: seq<Step>, i: nat, j: nat, token: TokenId)
    requires History(states, steps) && i < |steps| && Recovers(states[i], steps[i]) && i < j < |states|
    requires token in states[i].account.tokens
    ensures token in states[j].account.tokens && states[j].account.tokens[token].used
    ensures forall k :: |states[i + 1].consumed| <= k < |states[j].consumed| ==> states[j].consumed[k] != token
  {
    EveryInterleavingKeeps(states, steps, i);
    assert Steps(states, steps, i);
    UsedTokensAreNotConsumed(states, steps, i + 1, j, token);
  }

  lemma {:induction false} UsedTokensAreNotConsumed(states: seq<State>, steps: seq<Step>, i: nat, j: nat, token: TokenId)
    requires History(states, steps) && i <= j < |states|
    requires token in states[i].account.tokens && states[i].account.tokens[token].used
    ensures token in states[j].account.tokens && states[j].account.tokens[token].used
    ensures |states[i].consumed| <= |states[j].consumed|
    ensures forall k :: |states[i].consumed| <= k < |states[j].consumed| ==> states[j].consumed[k] != token
    decreases j
  {
    HistoriesEvolve(states, steps, i, j);
    if i < j {
      UsedTokensAreNotConsumed(states, steps, i, j - 1, token);
      EveryInterleavingKeeps(states, steps, j - 1);
      assert Steps(states, steps, j - 1);
    }
  }

  /**
    When a recovery commits, a session of the account still works if and only if it did until then and is not among
    those the recovery revoked; no password session does.
  */
  lemma RecoveryEndsSessions(s: State, step: Step, x: SessionId)
    requires Inv(s) && Enabled(s, step) && Recovers(s, step) && x in s.account.sessions
    ensures
      var after := Apply(s, step).account.sessions;
      && x in after
      && (after[x].live <==> s.account.sessions[x].live && x !in s.txs[step.x].work.value.revoked)
      && (s.account.sessions[x].password ==> !after[x].live)
  {
  }

  /** No password session that was live when a recovery committed ever works again. */
  lemma RecoveryCutsOffSessions(states: seq<State>, steps: seq<Step>, i: nat, j: nat, x: SessionId)
    requires History(states, steps) && i < |steps| && Recovers(states[i], steps[i]) && i < j < |states|
    requires x in states[i].account.sessions
    requires states[i].account.sessions[x].password || x in states[i].txs[steps[i].x].work.value.revoked
    ensures x in states[j].account.sessions && !states[j].account.sessions[x].live
  {
    EveryInterleavingKeeps(states, steps, i);
    assert Steps(states, steps, i);
    RecoveryEndsSessions(states[i], steps[i], x);
    HistoriesEvolve(states, steps, i + 1, j);
  }

  /** The k-th step is the statement of a recovery that revokes, and the i-th its commit. */
  predicate RevokesThenRecovers(states: seq<State>, steps: seq<Step>, k: nat, i: nat)
    requires |states| == |steps| + 1 && k < i < |steps|
  {
    && Recovers(states[i], steps[i])
    && (forall m :: k <= m <= i ==> steps[i].x in states[m].txs)
    && steps[k] == Run(steps[i].x)
    && var t := states[k].txs[steps[i].x];
    t.op.ResetPassword? && t.work.Some? && t.pc == 3 && !t.stopped
  }

  lemma RevokesThem(states: seq<State>, steps: seq<Step>, k: nat, i: nat)
    requires History(states, steps) && k < i < |steps| && RevokesThenRecovers(states, steps, k, i)
    ensures
      var t := states[k + 1].txs[steps[i].x];
      t.work.Some? && Finished(t) && t.work.value.revoked == states[k].account.sessions.Keys
  {
    EveryInterleavingKeeps(states, steps, k);
    assert Steps(states, steps, k);
    assert WorkSound(states[k].txs[steps[i].x], states[k].account);
  }

  /** Until it commits the transaction is as that statement left it. */
  lemma {:induction false} ThenWaits(states: seq<State>, steps: seq<Step>, k: nat, i: nat, m: nat)
    requires History(states, steps) && k < i < |steps| && RevokesThenRecovers(states, steps, k, i) && k < m <= i
    ensures states[m].txs[steps[i].x] == states[k + 1].txs[steps[i].x]
    decreases m
  {
    if m > k + 1 {
      ThenWaits(states, steps, k, i, m - 1);
      RevokesThem(states, steps, k, i);
      assert Steps(states, steps, m - 1);
      assert steps[i].x in states[m - 1].txs && steps[i].x in states[m].txs;
    }
  }

  /**
    Of the sessions there are when a recovery commits, exactly those that began after its revoking statement go on
    working as they did: every session there was at that statement is dead from then on.
  */
  lemma WhoSurvivesARecovery(states: seq<State>, steps: seq<Step>, k: nat, i: nat, j: nat, x: SessionId)
    requires History(states, steps) && k < i < |steps| && RevokesThenRecovers(states, steps, k, i) && i < j < |states|
    requires x in states[i].account.sessions
    ensures
      var before, after := states[i].account.sessions[x], states[i + 1].account.sessions;
      x in after && (after[x].live <==> before.live && x !in states[k].account.sessions)
    ensures x in states[j].account.sessions
    ensures x in states[k].account.sessions ==> !states[j].account.sessions[x].live
  {
    RevokesThem(states, steps, k, i);
    ThenWaits(states, steps, k, i, i);
    EveryInterleavingKeeps(states, steps, i);
    assert Steps(states, steps, i);
    RecoveryEndsSessions(states[i], steps[i], x);
    HistoriesEvolve(states, steps, i + 1, j);
  }

  /** A sign-in that commits opens a session only if it verified the secret the account has. */
  lemma SignInNeedsTheCurrentSecret(s: State, x: TxId)
    requires Inv(s) && Enabled(s, Commit(x)) && s.txs[x].op.SignIn?
    ensures Apply(s, Commit(x)).account.sessions.Keys != s.account.sessions.Keys ==> s.txs[x].op.secret == s.account.secret
  {
  }

  /** Salts are random: no reset after this state sets the secret `old`. */
  ghost predicate NeverSetAgain(states: seq<State>, steps: seq<Step>, replaced: Secret) {
    forall m :: 0 <= m < |steps| && steps[m].Start? && steps[m].op.ResetPassword? ==> steps[m].op.secret != replaced
  }

  ghost predicate NoResetTo(s: State, replaced: Secret) {
    forall x :: x in s.txs && s.txs[x].op.ResetPassword? ==> s.txs[x].op.secret != replaced
  }

  lemma {:induction false} NoResetEver(states: seq<State>, steps: seq<Step>, n: nat, replaced: Secret)
    requires History(states, steps) && n < |states| && NeverSetAgain(states, steps, replaced)
    ensures NoResetTo(states[n], replaced)
  {
    if n > 0 {
      NoResetEver(states, steps, n - 1, replaced);
      assert Steps(states, steps, n - 1);
    }
  }

  lemma {:induction false} TheOldSecretIsGone(states: seq<State>, steps: seq<Step>, i: nat, j: nat, replaced: Secret)
    requires History(states, steps) && i < |steps| && Recovers(states[i], steps[i]) && i < j < |states|
    requires NeverSetAgain(states, steps, replaced)
    ensures states[j].account.secret != replaced
    decreases j
  {
    EveryInterleavingKeeps(states, steps, j - 1);
    NoResetEver(states, steps, j - 1, replaced);
    assert Steps(states, steps, j - 1);
    if j == i + 1 {
      assert WorkSound(states[i].txs[steps[i].x], states[i].account);
    } else {
      TheOldSecretIsGone(states, steps, i, j - 1, replaced);
      if steps[j - 1].Commit? { assert WorkSound(states[j - 1].txs[steps[j - 1].x], states[j - 1].account); }
    }
  }

  /** A sign-in verified against the secret a recovery replaced opens no session once the recovery has committed. */
  lemma RecoveryCutsOffSignIns(states: seq<State>, steps: seq<Step>, i: nat, j: nat, x: TxId)
    requires History(states, steps) && i < |steps| && Recovers(states[i], steps[i]) && i < j < |steps|
    requires NeverSetAgain(states, steps, states[i].account.secret)
    requires steps[j] == Commit(x) && x in states[j].txs && states[j].txs[x].op.SignIn?
    requires states[j].txs[x].op.secret == states[i].account.secret
    ensures states[j + 1].account.sessions.Keys == states[j].account.sessions.Keys
  {
    TheOldSecretIsGone(states, steps, i, j, states[i].account.secret);
    EveryInterleavingKeeps(states, steps, j);
    assert Steps(states, steps, j);
    SignInNeedsTheCurrentSecret(states[j], x);
  }

  // ----- a session that outlives a recovery -----

  const LINK := Token(ToReset, 1, 100, false)
  const SPENT := Token(ToReset, 1, 100, true)
  const RESET := ResetPassword(0, 9, 50)
  const HELD := Work(1, 8, false, map[0 := LINK], None, {}, {})
  const USED := Work(1, 8, false, map[0 := SPENT], Some(0), {}, {})
  const CHANGED := Work(1, 9, true, map[0 := SPENT], Some(0), {}, {})
  const REVOKED := Work(1, 9, true, map[0 := SPENT], Some(0), {1}, {})

  const ACCOUNT := Account(1, 8, false, map[0 := LINK], map[1 := Session(true, true)])
  const JOINED := ACCOUNT.(sessions := map[1 := Session(true, true), 2 := Session(true, false)])
  const RECOVERED := Account(1, 9, true, map[0 := SPENT], map[1 := Session(false, true), 2 := Session(true, false)])

  function Recovering(pc: nat, work: Option<Work>): map<TxId, Tx> { map[0 := Tx(RESET, pc, work, false)] }

  /** A reset commits; before it does, but after it has revoked, a sign-in with Google opens a session. */
  const GOOGLE_STEPS := [Start(0, RESET), Lock(0), Run(0), Run(0), Run(0), Run(0), OtherSignIn(2), Commit(0)]
  const GOOGLE_STATES := [
    State(ACCOUNT, None, map[], {0, 1}, []), State(ACCOUNT, None, Recovering(0, None), {0, 1}, []),
    State(ACCOUNT, Some(0), Recovering(0, Some(HELD)), {0, 1}, []), State(ACCOUNT, Some(0), Recovering(1, Some(USED)), {0, 1}, []),
    State(ACCOUNT, Some(0), Recovering(2, Some(CHANGED)), {0, 1}, []), State(ACCOUNT, Some(0), Recovering(3, Some(CHANGED)), {0, 1}, []),
    State(ACCOUNT, Some(0), Recovering(4, Some(REVOKED)), {0, 1}, []), State(JOINED, Some(0), Recovering(4, Some(REVOKED)), {0, 1, 2}, []),
    State(RECOVERED, None, map[], {0, 1, 2}, [0])]

  predicate Follows(s: State, step: Step, s': State) { Enabled(s, step) && s' == Apply(s, step) }

  lemma ResetStarts()
    ensures Follows(GOOGLE_STATES[0], GOOGLE_STEPS[0], GOOGLE_STATES[1])
    ensures Follows(GOOGLE_STATES[1], GOOGLE_STEPS[1], GOOGLE_STATES[2])
  {
  }

  lemma ResetConsumes()
    ensures Follows(GOOGLE_STATES[2], GOOGLE_STEPS[2], GOOGLE_STATES[3])
  {
    assert map[0 := LINK][0 := SPENT] == map[0 := SPENT];
    assert Exec(Consume(0, {ToReset}, 50), HELD, ACCOUNT.sessions) == (USED, true);
    assert Recovering(0, Some(HELD))[0 := Tx(RESET, 1, Some(USED), false)] == Recovering(1, Some(USED));
  }

  lemma ResetSets()
    ensures Follows(GOOGLE_STATES[3], GOOGLE_STEPS[3], GOOGLE_STATES[4])
    ensures Follows(GOOGLE_STATES[4], GOOGLE_STEPS[4], GOOGLE_STATES[5])
  {
    assert UsedUp(map[0 := SPENT], {ToVerify, ToReset, ToChange}) == map[0 := SPENT];
  }

  lemma ResetRevokes()
    ensures Follows(GOOGLE_STATES[5], GOOGLE_STEPS[5], GOOGLE_STATES[6])
    ensures Follows(GOOGLE_STATES[6], GOOGLE_STEPS[6], GOOGLE_STATES[7])
  {
    assert {} + map[1 := Session(true, true)].Keys + {} == {1};
  }

  lemma ResetCommits()
    ensures Follows(GOOGLE_STATES[7], GOOGLE_STEPS[7], GOOGLE_STATES[8])
  {
    assert Installed(JOINED, REVOKED) == RECOVERED;
  }

  /** The password session is dead, and the one Google opened is not, though the recovery committed after it. */
  lemma AGoogleSessionOutlivesARecovery()
    ensures History(GOOGLE_STATES, GOOGLE_STEPS) && Recovers(GOOGLE_STATES[7], GOOGLE_STEPS[7])
    ensures GOOGLE_STATES[7].account.sessions[2].live && GOOGLE_STATES[8].account.sessions[2].live
    ensures !GOOGLE_STATES[8].account.sessions[1].live
  {
    ResetStarts();
    ResetConsumes();
    ResetSets();
    ResetRevokes();
    ResetCommits();
    forall i | 0 <= i < |GOOGLE_STEPS| ensures Steps(GOOGLE_STATES, GOOGLE_STEPS, i) {
      assert Follows(GOOGLE_STATES[i], GOOGLE_STEPS[i], GOOGLE_STATES[i + 1]);
    }
  }
}
