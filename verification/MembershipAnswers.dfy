/**
  What an interleaved transaction answers when it rolls back (web/lib/workspace-members.ts:47-220). Commits are
  serial by MembershipTx; here, so is every refusal, and no transaction runs on without end.
*/
module MembershipAnswers {
  import opened Common
  import opened Roles
  import opened MembershipSpec
  import opened MembershipTx

  /** The error the transaction's next statement rolls it back with, if it does. */
  function RollsBack(s: State, t: TxId): Option<Error>
    requires t in s.txs
  {
    var x := s.txs[t];
    match x.pc
    case LockAccount => None
    case InsertWorkspace => None
    case Commit => None
    case LockWorkspace => if WorkspaceOf(x).None? || WorkspaceOf(x).value !in s.db.orgs then Some(NotFound) else None
    case _ => match Statement(s.db, x) case Go(_) => None case Abort(e) => Some(e)
  }

  /** The statement refuses what the transaction would be refused if it ran alone on these tables. */
  ghost predicate RefusedAlone(db: Db, x: Tx) {
    Statement(db, x).Abort? ==> Serial(db, x.call) == Refused(Statement(db, x).error)
  }

  /** The transaction's workspace exists, as it does for whoever holds its lock. */
  predicate InWorkspace(db: Db, x: Tx) {
    WorkspaceOf(x).Some? && WorkspaceOf(x).value in db.orgs
  }

  lemma ChangeRoleRefused(db: Db, x: Tx)
    requires x.call.ChangeRole? && Knows(db, x) && Plain(x.pc) && InWorkspace(db, x)
    ensures RefusedAlone(db, x)
  {
    ViewNothing(db);
  }

  lemma RemoveMemberRefused(db: Db, x: Tx)
    requires x.call.RemoveMember? && Knows(db, x) && Plain(x.pc) && InWorkspace(db, x)
    ensures RefusedAlone(db, x)
  {
    ViewNothing(db);
  }

  lemma LeaveRefused(db: Db, x: Tx)
    requires x.call.Leave? && Knows(db, x) && Plain(x.pc) && InWorkspace(db, x)
    ensures RefusedAlone(db, x)
  {
    ViewNothing(db);
  }

  lemma CreateInvitationRefused(db: Db, x: Tx)
    requires x.call.CreateInvitation? && Knows(db, x) && Plain(x.pc) && InWorkspace(db, x)
    ensures RefusedAlone(db, x)
  {
    ViewNothing(db);
  }

  lemma RevokeInvitationRefused(db: Db, x: Tx)
    requires x.call.RevokeInvitation? && Knows(db, x) && Plain(x.pc) && InWorkspace(db, x)
    ensures RefusedAlone(db, x)
  {
    ViewNothing(db);
  }

  lemma AcceptInvitationRefused(db: Db, x: Tx)
    requires x.call.AcceptInvitation? && Knows(db, x) && Plain(x.pc) && (x.pc.FindInvitation? || InWorkspace(db, x))
    ensures RefusedAlone(db, x)
  {
    ViewNothing(db);
  }

  lemma PlainRefused(db: Db, x: Tx)
    requires Knows(db, x) && Plain(x.pc) && (x.pc.FindInvitation? || x.call.CreatePersonal? || InWorkspace(db, x))
    requires Statement(db, x).Abort?
    ensures Serial(db, x.call) == Refused(Statement(db, x).error)
  {
    assert RefusedAlone(db, x) by {
      match x.call
      case ChangeRole(_, _, _) => ChangeRoleRefused(db, x);
      case RemoveMember(_, _, _) => RemoveMemberRefused(db, x);
      case Leave(_, _) => LeaveRefused(db, x);
      case CreateInvitation(_, _, _, _, _) => CreateInvitationRefused(db, x);
      case RevokeInvitation(_, _, _) => RevokeInvitationRefused(db, x);
      case AcceptInvitation(_, _, _) => AcceptInvitationRefused(db, x);
      case CreatePersonal(_, _) => PersonalNeverRefused(db, x);
    }
  }

  lemma PersonalNeverRefused(db: Db, x: Tx)
    requires x.call.CreatePersonal? && Knows(db, x) && Plain(x.pc)
    ensures Statement(db, x).Go?
  {
  }

  lemma LockRefused(db: Db, x: Tx)
    requires ValidDb(db) && Knows(db, x) && x.pc.LockWorkspace? && !InWorkspace(db, x)
    ensures Serial(db, x.call) == Refused(NotFound)
  {
  }

  lemma KnowsHere(s: State, t: TxId)
    requires Valid(s) && t in s.txs
    ensures ValidDb(s.db) && Knows(s.db, s.txs[t])
    ensures Stage(s.txs[t].pc) > 2 && !s.txs[t].call.CreatePersonal? ==> InWorkspace(s.db, s.txs[t])
  {
    assert HoldsLocks(s, t);
  }

  lemma RefusedHere(s: State, t: TxId)
    requires t in s.txs && ValidDb(s.db) && Knows(s.db, s.txs[t]) && RollsBack(s, t).Some?
    requires Stage(s.txs[t].pc) > 2 && !s.txs[t].call.CreatePersonal? ==> InWorkspace(s.db, s.txs[t])
    ensures Serial(s.db, s.txs[t].call) == Refused(RollsBack(s, t).value)
  {
    if s.txs[t].pc.LockWorkspace? { LockRefused(s.db, s.txs[t]); } else { PlainRefused(s.db, s.txs[t]); }
  }

  /** Whatever has run between a transaction's statements, the one that refuses it gives the error it would get alone. */
  lemma ARefusalIsSerial(s: State, t: TxId)
    requires Valid(s) && t in s.txs && RollsBack(s, t).Some?
    ensures Serial(s.db, s.txs[t].call) == Refused(RollsBack(s, t).value)
  {
    KnowsHere(s, t);
    RefusedHere(s, t);
  }

  lemma EndsExactly(s: State, t: TxId)
    requires Enabled(s, t)
    ensures t !in Fire(s, t).txs <==> s.txs[t].pc.Commit? || RollsBack(s, t).Some?
    ensures RollsBack(s, t).Some? ==> Fire(s, t).db == s.db
  {
  }

  /**
    In every run, from tables with nothing under way: a transaction's step ends it exactly when it commits or is
    refused, and either way it answers what it would if it ran alone on the tables of that moment.
  */
  lemma EveryAnswerIsSerial(db: Db, ls: seq<Label>, t: TxId)
    requires ValidDb(db) && IsRun(State(db, map[], map[], map[]), ls)
    requires Enabled(After(State(db, map[], map[], map[]), ls), t)
    ensures
      var s := After(State(db, map[], map[], map[]), ls);
      && (t !in Fire(s, t).txs <==> s.txs[t].pc.Commit? || RollsBack(s, t).Some?)
      && (s.txs[t].pc.Commit? ==> Serial(s.db, s.txs[t].call) == Done(Fire(s, t).db, s.txs[t].role))
      && (RollsBack(s, t).Some? ==> Serial(s.db, s.txs[t].call) == Refused(RollsBack(s, t).value) && Fire(s, t).db == s.db)
  {
    var start := State(db, map[], map[], map[]);
    QuietIsValid(db);
    EveryRunIsSerial(start, ls);
    AnswersHere(After(start, ls), t);
  }

  lemma AnswersHere(s: State, t: TxId)
    requires Valid(s) && Enabled(s, t)
    ensures t !in Fire(s, t).txs <==> s.txs[t].pc.Commit? || RollsBack(s, t).Some?
    ensures s.txs[t].pc.Commit? ==> Serial(s.db, s.txs[t].call) == Done(Fire(s, t).db, s.txs[t].role)
    ensures RollsBack(s, t).Some? ==> Serial(s.db, s.txs[t].call) == Refused(RollsBack(s, t).value) && Fire(s, t).db == s.db
  {
    EndsExactly(s, t);
    if RollsBack(s, t).Some? { ARefusalIsSerial(s, t); }
    if s.txs[t].pc.Commit? { CommitIsSerial(s.db, s.txs[t]); }
  }

  /** And it ends: every step a transaction takes brings it further on, through at most eighteen stages. */
  lemma EveryStepGoesOn(s: State, t: TxId)
    requires Valid(s) && Enabled(s, t) && t in Fire(s, t).txs
    ensures Stage(s.txs[t].pc) < Stage(Fire(s, t).txs[t].pc) <= 17
  {
    var x := s.txs[t];
    assert Plain(x.pc) && Statement(s.db, x).Go? ==> Stage(x.pc) < Stage(Statement(s.db, x).tx.pc) by {
      assert ValidDb(s.db) && Knows(s.db, x);
      if Plain(x.pc) { StatementGoesOn(s.db, x); }
    }
    FiresOn(s, t);
  }

  lemma FiresOn(s: State, t: TxId)
    requires t in s.txs && t in Fire(s, t).txs
    requires
      var x := s.txs[t];
      Plain(x.pc) && Statement(s.db, x).Go? ==> Stage(x.pc) < Stage(Statement(s.db, x).tx.pc)
    ensures Stage(s.txs[t].pc) < Stage(Fire(s, t).txs[t].pc) <= 17
  {
  }

  lemma StatementGoesOn(db: Db, x: Tx)
    requires ValidDb(db) && Knows(db, x) && Plain(x.pc)
    ensures Statement(db, x).Go? ==> Stage(x.pc) < Stage(Statement(db, x).tx.pc)
  {
    OwnStatement(db, x);
  }

  /** What is refused before a transaction opens is what it would be refused in it, on any tables. */
  lemma TheFastRefusalIsSerial(db: Db, c: Call)
    requires !Opens(c)
    ensures Serial(db, c) == Refused(Forbidden)
  {
  }
}
