/**
  A removal's session statements as they interleave (web/lib/sessions.ts:77-87, in web/lib/workspace-members.ts:123-137):
  the member's default workspace is read in two statements, and the sessions are updated in a third, on tables that
  others may have changed in between. A personal workspace is made without the account's lock; but whoever is a member
  anywhere has their own workspace row already, for only a signed-in account that acts somewhere accepts an invitation.
*/
module OffboardTx {
  import opened Common
  import opened Roles
  import opened MembershipSpec
  import opened MembershipTx
  import opened MemberStore

  // ----- every member has a workspace row of their own -----

  ghost predicate AllHaveTheirOwn(db: Db) {
    forall k :: k in db.mems ==> k.acct in db.orgs
  }

  /** So has every account that is accepting an invitation. */
  ghost predicate Owned(s: State) {
    && AllHaveTheirOwn(s.db)
    && forall t :: t in s.txs && s.txs[t].call.AcceptInvitation? ==> s.txs[t].call.actor in s.db.orgs
  }

  /** Whoever a request is resolved for has their own workspace row, found or made. */
  lemma WhoActsHasTheirOwn(db: Db, user: Id, active: Option<Id>, now: int)
    requires ValidDb(db) && AllHaveTheirOwn(db) && user in db.users
    ensures Resolve(db, user, active).ActsIn? ==> user in db.orgs
    ensures Resolve(db, user, active).MakesPersonal? ==>
      Serial(db, CreatePersonal(user, now)).Done? && user in Serial(db, CreatePersonal(user, now)).db.orgs
  {
    if active.None? && HasWorkspace(db, user) { assert Oldest(db, user) in KeysOf(db, user); }
  }

  /** An invitation is accepted for a signed-in account that acts somewhere. */
  predicate SignedIn(s: State, l: Label) {
    l.Starts? && l.call.AcceptInvitation? ==> l.call.actor in s.db.orgs
  }

  ghost predicate AllSignedIn(s: State, ls: seq<Label>)
    requires IsRun(s, ls)
    decreases |ls|
  {
    ls != [] ==> SignedIn(s, ls[0]) && AllSignedIn(Apply(s, ls[0]), ls[1..])
  }

  lemma SerialKeepsOwned(db: Db, c: Call)
    requires Serial(db, c).Done? && AllHaveTheirOwn(db) && (c.AcceptInvitation? ==> c.actor in db.orgs)
    ensures AllHaveTheirOwn(Serial(db, c).db) && db.orgs <= Serial(db, c).db.orgs
  {
  }

  /** What the committed tables become at a step. */
  lemma StepKeepsOwnedTables(s: State, l: Label)
    requires Valid(s) && Allowed(s, l) && Owned(s)
    ensures AllHaveTheirOwn(Apply(s, l).db) && s.db.orgs <= Apply(s, l).db.orgs
  {
    StepRefines(s, l);
    if l.Runs? && s.txs[l.t].pc.Commit? { SerialKeepsOwned(s.db, s.txs[l.t].call); }
  }

  lemma StatementKeepsCall(db: Db, x: Tx)
    ensures Statement(db, x).Go? ==> Statement(db, x).tx.call == x.call
  {
    match x.call
    case ChangeRole(_, _, _) => assert StepChangeRole(db, x).Go? ==> StepChangeRole(db, x).tx.call == x.call;
    case RemoveMember(_, _, _) => assert StepRemoveMember(db, x).Go? ==> StepRemoveMember(db, x).tx.call == x.call;
    case Leave(_, _) => assert StepLeave(db, x).Go? ==> StepLeave(db, x).tx.call == x.call;
    case CreateInvitation(_, _, _, _, _) => assert StepCreateInvitation(db, x).Go? ==> StepCreateInvitation(db, x).tx.call == x.call;
    case RevokeInvitation(_, _, _) => assert StepRevokeInvitation(db, x).Go? ==> StepRevokeInvitation(db, x).tx.call == x.call;
    case AcceptInvitation(_, _, _) => assert StepAcceptInvitation(db, x).Go? ==> StepAcceptInvitation(db, x).tx.call == x.call;
    case CreatePersonal(_, _) => assert StepCreatePersonal(db, x).Go? ==> StepCreatePersonal(db, x).tx.call == x.call;
  }

  lemma OwnCallStays(s: State, t: TxId)
    requires t in s.txs && t in Fire(s, t).txs
    ensures Fire(s, t).txs[t].call == s.txs[t].call
  {
    StatementKeepsCall(s.db, s.txs[t]);
  }

  lemma OthersStay(s: State, t: TxId, u: TxId)
    requires t in s.txs && u != t
    ensures u in Fire(s, t).txs <==> u in s.txs
    ensures u in s.txs ==> Fire(s, t).txs[u] == s.txs[u]
  {
  }

  /** A step leaves every call as it is, but for one that starts. */
  lemma CallsStay(s: State, l: Label, u: TxId)
    requires Allowed(s, l) && u in Apply(s, l).txs
    ensures l == Starts(u, Apply(s, l).txs[u].call) || (u in s.txs && Apply(s, l).txs[u].call == s.txs[u].call)
  {
    match l
    case Starts(t, c) =>
    case SignsUp(a, user) =>
    case Runs(t) =>
      if u == t { OwnCallStays(s, u); } else { OthersStay(s, t, u); }
  }

  lemma StepKeepsOwned(s: State, l: Label)
    requires Valid(s) && Allowed(s, l) && Owned(s) && SignedIn(s, l)
    ensures Owned(Apply(s, l))
  {
    StepKeepsOwnedTables(s, l);
    var s' := Apply(s, l);
    forall u | u in s'.txs && s'.txs[u].call.AcceptInvitation? ensures s'.txs[u].call.actor in s'.db.orgs {
      CallsStay(s, l, u);
    }
  }

  /** In every run whose invitations are accepted by signed-in accounts, every member has their own workspace row. */
  lemma {:induction false} EveryMemberHasTheirOwn(s: State, ls: seq<Label>)
    requires Valid(s) && Owned(s) && IsRun(s, ls) && AllSignedIn(s, ls)
    ensures Owned(After(s, ls)) && Valid(After(s, ls))
    decreases |ls|
  {
    if ls != [] {
      StepRefines(s, ls[0]);
      StepKeepsOwned(s, ls[0]);
      EveryMemberHasTheirOwn(Apply(s, ls[0]), ls[1..]);
    }
  }

  // ----- what the account lock then keeps -----

  /** The account's memberships are the same, and as old. */
  ghost predicate SameMemberships(db: Db, db': Db, a: Id) {
    && (forall k: Key :: k.acct == a ==> (k in db.mems <==> k in db'.mems))
    && (forall k :: k in db.mems && k in db'.mems && k.acct == a ==> db'.mems[k].createdAt == db.mems[k].createdAt)
  }

  /** Of an account with its own workspace row only a transaction of its own changes which memberships it has. */
  lemma SerialTouches(db: Db, c: Call, a: Id)
    requires Serial(db, c).Done? && AccountOf(c) != Some(a) && a in db.orgs
    ensures SameMemberships(db, Serial(db, c).db, a)
  {
  }

  /** A transaction that commits has locked its account, if the account is there. */
  lemma CommittingHolds(s: State, u: TxId, a: Id)
    requires Orderly(s) && u in s.txs && s.txs[u].pc.Commit? && AccountOf(s.txs[u].call) == Some(a) && a in s.db.users
    ensures a in s.acctLock && s.acctLock[a] == u
  {
    assert HoldsLocks(s, u);
  }

  /** A removal past its checks, of a member with their own workspace row. */
  predicate RemovalChecked(s: State, t: TxId) {
    && t in s.txs && s.txs[t].call.RemoveMember? && s.txs[t].pc.RevokeSent?
    && s.txs[t].call.member in s.db.orgs
  }

  lemma CheckedIsMember(db: Db, x: Tx)
    requires x.call.RemoveMember? && x.pc.RevokeSent? && KnowsRemoveMember(db, x)
    ensures Key(x.call.who.tenant, x.call.member) in db.mems
  {
  }

  lemma KnowsTheRemoval(s: State, t: TxId)
    requires AllKnow(s) && t in s.txs && s.txs[t].call.RemoveMember?
    ensures KnowsRemoveMember(s.db, s.txs[t])
  {
    assert Knows(s.db, s.txs[t]);
  }

  lemma LocksTheMember(s: State, t: TxId)
    requires Orderly(s) && t in s.txs && s.txs[t].call.RemoveMember? && s.txs[t].pc.RevokeSent?
    requires s.txs[t].call.member in s.db.users
    ensures s.txs[t].call.member in s.acctLock && s.acctLock[s.txs[t].call.member] == t
  {
    assert HoldsLocks(s, t);
  }

  /** It has locked the member's account, and the member is there. */
  lemma RemovalHolds(s: State, t: TxId)
    requires Valid(s) && RemovalChecked(s, t)
    ensures
      var c := s.txs[t].call;
      && Key(c.who.tenant, c.member) in s.db.mems && c.member in s.db.users
      && c.member in s.acctLock && s.acctLock[c.member] == t
  {
    KnowsTheRemoval(s, t);
    CheckedIsMember(s.db, s.txs[t]);
    LocksTheMember(s, t);
  }

  lemma AnotherAccount(s: State, u: TxId, t: TxId)
    requires Valid(s) && RemovalChecked(s, t) && u in s.txs && u != t && s.txs[u].pc.Commit?
    ensures AccountOf(s.txs[u].call) != Some(s.txs[t].call.member)
  {
    RemovalHolds(s, t);
    if AccountOf(s.txs[u].call) == Some(s.txs[t].call.member) { CommittingHolds(s, u, s.txs[t].call.member); }
  }

  lemma CommitBesideARemoval(s: State, u: TxId, t: TxId)
    requires Valid(s) && RemovalChecked(s, t) && u in s.txs && u != t && s.txs[u].pc.Commit?
    requires Serial(s.db, s.txs[u].call).Done?
    ensures SameMemberships(s.db, Serial(s.db, s.txs[u].call).db, s.txs[t].call.member)
  {
    AnotherAccount(s, u, t);
    SerialTouches(s.db, s.txs[u].call, s.txs[t].call.member);
  }

  lemma SerialGrows(db: Db, c: Call)
    requires Serial(db, c).Done?
    ensures db.orgs <= Serial(db, c).db.orgs
  {
  }

  lemma StaysChecked(s: State, l: Label, t: TxId)
    requires Allowed(s, l) && RemovalChecked(s, t) && l != Runs(t) && s.db.orgs <= Apply(s, l).db.orgs
    ensures RemovalChecked(Apply(s, l), t) && Apply(s, l).txs[t].call == s.txs[t].call
  {
    if l.Runs? { OthersStay(s, l.t, t); }
  }

  /** Nothing that runs beside it touches the member's memberships. */
  lemma BesideARemoval(s: State, l: Label, t: TxId)
    requires Valid(s) && RemovalChecked(s, t) && Allowed(s, l) && l != Runs(t)
    ensures RemovalChecked(Apply(s, l), t) && Apply(s, l).txs[t].call == s.txs[t].call
    ensures SameMemberships(s.db, Apply(s, l).db, s.txs[t].call.member)
  {
    assert StepIsSerial(s, l) by { StepRefines(s, l); }
    if l.Runs? && s.txs[l.t].pc.Commit? {
      CommitBesideARemoval(s, l.t, t);
      SerialGrows(s.db, s.txs[l.t].call);
    }
    StaysChecked(s, l, t);
  }

  lemma SameTwice(x: Db, y: Db, z: Db, a: Id)
    requires SameMemberships(x, y, a) && SameMemberships(y, z, a)
    ensures SameMemberships(x, z, a)
  {
  }

  /** None of the steps is a statement of t. */
  predicate Spares(ls: seq<Label>, t: TxId) {
    forall i :: 0 <= i < |ls| ==> ls[i] != Runs(t)
  }

  /** However much runs between two of its statements, the member's memberships are what they were. */
  lemma {:induction false} TheLockKeepsMemberships(s: State, ls: seq<Label>, t: TxId)
    requires Valid(s) && RemovalChecked(s, t) && IsRun(s, ls) && Spares(ls, t)
    ensures Valid(After(s, ls)) && RemovalChecked(After(s, ls), t) && After(s, ls).txs[t].call == s.txs[t].call
    ensures SameMemberships(s.db, After(s, ls).db, s.txs[t].call.member)
    decreases |ls|
  {
    if ls != [] {
      var s', rest := Apply(s, ls[0]), ls[1..];
      assert Spares(rest, t);
      BesideARemoval(s, ls[0], t);
      assert Valid(s') by { StepRefines(s, ls[0]); }
      TheLockKeepsMemberships(s', rest, t);
      SameTwice(s.db, s'.db, After(s', rest).db, s.txs[t].call.member);
    }
  }

  // ----- the three statements -----

  /** The default, its two statements reading different tables. */
  function DefaultRead(first: Db, second: Db, a: Id): Option<Id> {
    if RoleOf(first, a, a).Some? then Some(a)
    else if HasWorkspace(second, a) then Some(Oldest(second, a).ws)
    else None
  }

  /** The update, on the default that was read. */
  function RevokedOn(default: Option<Id>, sessions: Sessions, member: Id, w: Id, remover: Id, now: int): Sessions {
    map i | i in sessions ::
      if sessions[i].user == member && Live(sessions[i], now)
         && (sessions[i].active == Some(w) || (default == Some(w) && sessions[i].active.None?))
      then sessions[i].(revokedAt := Some(now), revokedBy := Some(remover)) else sessions[i]
  }

  lemma SameOldest(db: Db, db': Db, a: Id)
    requires SameMemberships(db, db', a) && HasWorkspace(db, a)
    ensures HasWorkspace(db', a) && Oldest(db', a) == Oldest(db, a)
  {
    assert KeysOf(db', a) == KeysOf(db, a);
    var o, o' := Oldest(db, a), Oldest(db', a);
    assert Before(db.mems, o, o') && Before(db'.mems, o', o);
  }

  /** On tables that agree on the member, the update ends exactly the sessions that act in the workspace at that moment. */
  lemma TheUpdateIsExact(first: Db, second: Db, third: Db, sessions: Sessions, member: Id, w: Id, remover: Id, now: int)
    requires SameMemberships(first, second, member) && SameMemberships(second, third, member) && Key(w, member) in first.mems
    ensures RevokedOn(DefaultRead(first, second, member), sessions, member, w, remover, now)
         == Offboarded(third, sessions, member, w, remover, now)
  {
    assert Key(w, member) in KeysOf(second, member);
    SameOldest(second, third, member);
  }

  /**
    In every run, from any tables where members have their own workspace rows: whatever runs between a removal's two
    reads of the default and its update of the sessions, it ends exactly the sessions that act in its workspace when it
    updates them.
  */
  lemma ARemovalEndsExactlyTheSessionsThere(db: Db, before: seq<Label>, between: seq<Label>, after: seq<Label>, t: TxId,
                                            sessions: Sessions)
    requires ValidDb(db) && AllHaveTheirOwn(db)
    requires var s := State(db, map[], map[], map[]); IsRun(s, before) && AllSignedIn(s, before)
    requires
      var first := After(State(db, map[], map[], map[]), before);
      t in first.txs && first.txs[t].call.RemoveMember? && first.txs[t].pc.RevokeSent? && IsRun(first, between)
    requires IsRun(After(After(State(db, map[], map[], map[]), before), between), after)
    requires Spares(between, t) && Spares(after, t)
    ensures
      var first := After(State(db, map[], map[], map[]), before);
      var second := After(first, between);
      var third := After(second, after);
      var RemoveMember(who, member, now) := first.txs[t].call;
      RevokedOn(DefaultRead(first.db, second.db, member), sessions, member, who.tenant, who.actor, now)
        == Offboarded(third.db, sessions, member, who.tenant, who.actor, now)
  {
    var quiet := State(db, map[], map[], map[]);
    QuietIsValid(db);
    EveryMemberHasTheirOwn(quiet, before);
    var first := After(quiet, before);
    CheckedMemberIsThere(first, t);
    TheRunBetween(first, between, after, t, sessions);
  }

  lemma CheckedMemberIsThere(s: State, t: TxId)
    requires Valid(s) && Owned(s) && t in s.txs && s.txs[t].call.RemoveMember? && s.txs[t].pc.RevokeSent?
    ensures RemovalChecked(s, t)
  {
    KnowsTheRemoval(s, t);
    CheckedIsMember(s.db, s.txs[t]);
  }

  lemma TheRunBetween(first: State, between: seq<Label>, after: seq<Label>, t: TxId, sessions: Sessions)
    requires Valid(first) && RemovalChecked(first, t) && IsRun(first, between) && IsRun(After(first, between), after)
    requires Spares(between, t) && Spares(after, t)
    ensures
      var second := After(first, between);
      var third := After(second, after);
      var RemoveMember(who, member, now) := first.txs[t].call;
      RevokedOn(DefaultRead(first.db, second.db, member), sessions, member, who.tenant, who.actor, now)
        == Offboarded(third.db, sessions, member, who.tenant, who.actor, now)
  {
    var second := After(first, between);
    var RemoveMember(who, member, now) := first.txs[t].call;
    RemovalHolds(first, t);
    TheLockKeepsMemberships(first, between, t);
    TheLockKeepsMemberships(second, after, t);
    TheUpdateIsExact(first.db, second.db, After(second, after).db, sessions, member, who.tenant, who.actor, now);
  }
}
