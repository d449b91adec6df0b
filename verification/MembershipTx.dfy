/**
  The membership transactions as they interleave on READ COMMITTED: each step runs one statement of one
  transaction. A statement sees what had committed before it began plus its own transaction's writes; row
  locks on an account (users) and on a workspace (organizations) are held to commit. Source:
  web/lib/workspace-members.ts lines 50-220 and web/lib/workspaces.ts lines 68-75.
*/
module MembershipTx {
  import opened Common
  import opened Roles
  import opened MembershipSpec

  type TxId = nat

  /** The statement a transaction runs next. */
  datatype Pc =
    | FindInvitation | LockAccount | LockWorkspace | InsertWorkspace | ReadActor | ReadTarget | CountOwners
    | CountWorkspaces | FindMember | ReadPending | RevokePending | CountPending | UseInvitation | ReadAccount
    | RevokeSent | WriteMember | InsertInvitation | ReadBack | Commit

  /** A transaction's own uncommitted writes. */
  datatype Delta = Delta(orgs: set<Id>, put: map<Key, Mem>, del: set<Key>, invs: map<Id, Inv>)

  const NoWrites := Delta({}, map[], {}, map[])

  /** A transaction in progress: its next statement, what its earlier statements read, and its writes. */
  datatype Tx = Tx(call: Call, pc: Pc, me: Option<Role>, current: Option<Role>, inv: Option<Inv>,
                   delta: Delta, role: Option<Role>)

  /** What one statement leaves: the transaction, further on, or the error that rolls it back. */
  datatype Next = Go(tx: Tx) | Abort(error: Error)

  datatype State = State(db: Db, acctLock: map<Id, TxId>, wsLock: map<Id, TxId>, txs: map<TxId, Tx>)

  /** The committed tables with a transaction's own writes on top. */
  function View(db: Db, d: Delta): Db {
    db.(orgs := db.orgs + d.orgs, mems := (db.mems - d.del) + d.put, invs := db.invs + d.invs)
  }

  /** The account a transaction locks first, if it locks one. */
  function AccountOf(c: Call): Option<Id> {
    match c
    case RemoveMember(_, member, _) => Some(member)
    case Leave(who, _) => Some(who.actor)
    case AcceptInvitation(actor, _, _) => Some(actor)
    case _ => None
  }

  /** The workspace a transaction locks (an acceptance learns it from the invitation). */
  function WorkspaceOf(x: Tx): Option<Id> {
    match x.call
    case ChangeRole(who, _, _) => Some(who.tenant)
    case RemoveMember(who, _, _) => Some(who.tenant)
    case Leave(who, _) => Some(who.tenant)
    case CreateInvitation(who, _, _, _, _) => Some(who.tenant)
    case RevokeInvitation(who, _, _) => Some(who.tenant)
    case AcceptInvitation(_, _, _) => if x.inv.Some? then Some(x.inv.value.tenant) else None
    case CreatePersonal(user, _) => Some(user)
  }

  /** What the function checks before it opens the transaction. */
  predicate Opens(c: Call) {
    && (c.RemoveMember? ==> c.member != c.who.actor)
    && (c.CreateInvitation? ==> MayManage(c.who.role, None, Some(c.role)))
  }

  function FirstPc(c: Call): Pc {
    match c
    case ChangeRole(_, _, _) => LockWorkspace
    case RemoveMember(_, _, _) => LockAccount
    case Leave(_, _) => LockAccount
    case CreateInvitation(_, _, _, _, _) => LockWorkspace
    case RevokeInvitation(_, _, _) => LockWorkspace
    case AcceptInvitation(_, _, _) => FindInvitation
    case CreatePersonal(_, _) => InsertWorkspace
  }

  function Begin(c: Call): Tx {
    Tx(c, FirstPc(c), None, None, None, NoWrites, None)
  }

  /** The statement after the workspace lock. */
  function AfterLock(c: Call): Pc {
    if c.Leave? then ReadTarget else ReadActor
  }

  // ----- the plain statements (no lock to wait for, no commit) of each transaction -----

  function StepChangeRole(db: Db, x: Tx): Next
    requires x.call.ChangeRole?
  {
    var ChangeRole(who, member, role) := x.call;
    var v := View(db, x.delta);
    match x.pc
    case ReadActor =>
      var me := RoleOf(v, who.tenant, who.actor);
      if me.None? then Abort(Forbidden) else Go(x.(pc := ReadTarget, me := me))
    case ReadTarget =>
      var current := RoleOf(v, who.tenant, member);
      if current.None? then Abort(NotFound)
      else if x.me.None? || !MayManage(x.me.value, current, Some(role)) then Abort(Forbidden)
      else Go(x.(pc := CountOwners, current := current))
    case CountOwners =>
      if x.current == Some(Owner) && role != Owner && |OwnerKeys(v, who.tenant)| <= 1 then Abort(LastOwner)
      else Go(x.(pc := WriteMember))
    case WriteMember =>
      var k := Key(who.tenant, member);
      var d := if x.current != Some(role) && k in v.mems
               then x.delta.(put := x.delta.put[k := v.mems[k].(role := role)]) else x.delta;
      Go(x.(pc := Commit, delta := d, role := x.current))
    case _ => Abort(NotFound)
  }

  function StepRemoveMember(db: Db, x: Tx): Next
    requires x.call.RemoveMember?
  {
    var RemoveMember(who, member, now) := x.call;
    var v := View(db, x.delta);
    match x.pc
    case ReadActor =>
      var me := RoleOf(v, who.tenant, who.actor);
      if me.None? then Abort(Forbidden) else Go(x.(pc := ReadTarget, me := me))
    case ReadTarget =>
      var current := RoleOf(v, who.tenant, member);
      if current.None? then Abort(NotFound)
      else if x.me.None? || !MayManage(x.me.value, current, None) then Abort(Forbidden)
      else Go(x.(pc := CountOwners, current := current))
    case CountOwners =>
      if x.current == Some(Owner) && |OwnerKeys(v, who.tenant)| <= 1 then Abort(LastOwner)
      else Go(x.(pc := CountWorkspaces))
    case CountWorkspaces =>
      if |KeysOf(v, member)| <= 1 then Abort(OnlyWorkspace) else Go(x.(pc := RevokeSent))
    case RevokeSent =>
      Go(x.(pc := WriteMember, delta := x.delta.(invs := x.delta.invs + SentRevoked(v, who.tenant, member, now))))
    case WriteMember =>
      Go(x.(pc := Commit, delta := x.delta.(del := x.delta.del + {Key(who.tenant, member)}), role := x.current))
    case _ => Abort(NotFound)
  }

  function StepLeave(db: Db, x: Tx): Next
    requires x.call.Leave?
  {
    var Leave(who, now) := x.call;
    var v := View(db, x.delta);
    match x.pc
    case ReadTarget =>
      var current := RoleOf(v, who.tenant, who.actor);
      if current.None? then Abort(NotFound) else Go(x.(pc := CountOwners, current := current))
    case CountOwners =>
      if x.current == Some(Owner) && |OwnerKeys(v, who.tenant)| <= 1 then Abort(LastOwner)
      else Go(x.(pc := CountWorkspaces))
    case CountWorkspaces =>
      if |KeysOf(v, who.actor)| <= 1 then Abort(OnlyWorkspace) else Go(x.(pc := RevokeSent))
    case RevokeSent =>
      Go(x.(pc := WriteMember, delta := x.delta.(invs := x.delta.invs + SentRevoked(v, who.tenant, who.actor, now))))
    case WriteMember =>
      Go(x.(pc := Commit, delta := x.delta.(del := x.delta.del + {Key(who.tenant, who.actor)}), role := x.current))
    case _ => Abort(NotFound)
  }

  function StepCreateInvitation(db: Db, x: Tx): Next
    requires x.call.CreateInvitation?
  {
    var CreateInvitation(who, email, role, id, now) := x.call;
    var v := View(db, x.delta);
    match x.pc
    case ReadActor =>
      var me := RoleOf(v, who.tenant, who.actor);
      if me.None? || !MayManage(me.value, None, Some(role)) then Abort(Forbidden)
      else Go(x.(pc := FindMember, me := me))
    case FindMember =>
      if IsMemberByEmail(v, who.tenant, email) then Abort(AlreadyMember) else Go(x.(pc := ReadPending))
    case ReadPending =>
      if x.me.None? || !MayReplace(v, x.me.value, who.tenant, email, now) then Abort(Forbidden)
      else Go(x.(pc := RevokePending))
    case RevokePending =>
      Go(x.(pc := CountPending, delta := x.delta.(invs := x.delta.invs + ReplacedRevoked(v, who.tenant, email, now))))
    case CountPending =>
      if |PendingIds(v.invs, who.tenant, now)| >= MAX_PENDING_INVITES then Abort(TooManyInvites)
      else Go(x.(pc := InsertInvitation))
    case InsertInvitation =>
      Go(x.(pc := Commit, delta := x.delta.(invs := x.delta.invs[id := NewInvitation(who, email, role, now)])))
    case _ => Abort(NotFound)
  }

  function StepRevokeInvitation(db: Db, x: Tx): Next
    requires x.call.RevokeInvitation?
  {
    var RevokeInvitation(who, id, now) := x.call;
    var v := View(db, x.delta);
    match x.pc
    case ReadActor =>
      var me := RoleOf(v, who.tenant, who.actor);
      if me.None? then Abort(Forbidden) else Go(x.(pc := ReadPending, me := me))
    case ReadPending =>
      if !(id in v.invs && v.invs[id].tenant == who.tenant && Unused(v.invs[id])) then Abort(NotFound)
      else if x.me.None? || !MayManage(x.me.value, None, Some(v.invs[id].role)) then Abort(Forbidden)
      else Go(x.(pc := RevokePending, role := Some(v.invs[id].role)))
    case RevokePending =>
      var d := if id in v.invs && v.invs[id].tenant == who.tenant
               then x.delta.(invs := x.delta.invs[id := v.invs[id].(revokedAt := Some(now))]) else x.delta;
      Go(x.(pc := Commit, delta := d))
    case _ => Abort(NotFound)
  }

  function StepAcceptInvitation(db: Db, x: Tx): Next
    requires x.call.AcceptInvitation?
  {
    var AcceptInvitation(actor, token, now) := x.call;
    var v := View(db, x.delta);
    match x.pc
    case FindInvitation =>
      if !(token in v.invs && Pending(v.invs[token], now)) then Abort(InvalidInvite)
      else Go(x.(pc := LockAccount, inv := Some(v.invs[token])))
    case ReadActor =>
      if x.inv.None? then Abort(InvalidInvite) else
      var inviter := RoleOf(v, x.inv.value.tenant, x.inv.value.invitedBy);
      if inviter.None? || !MayManage(inviter.value, None, Some(x.inv.value.role)) then Abort(InvalidInvite)
      else Go(x.(pc := UseInvitation, me := inviter))
    case UseInvitation =>
      if !(token in v.invs && Pending(v.invs[token], now)) then Abort(InvalidInvite)
      else
        var used := v.invs[token].(acceptedAt := Some(now), acceptedBy := Some(actor));
        Go(x.(pc := ReadAccount, delta := x.delta.(invs := x.delta.invs[token := used])))
    case ReadAccount =>
      if x.inv.None? || !(actor in v.users && v.users[actor].email == x.inv.value.email) then Abort(WrongAccount)
      else if !v.users[actor].verified then Abort(EmailUnverified)
      else Go(x.(pc := WriteMember))
    case WriteMember =>
      if x.inv.None? then Abort(InvalidInvite) else
      var k := Key(x.inv.value.tenant, actor);
      var d := if k in v.mems then x.delta else x.delta.(put := x.delta.put[k := Mem(x.inv.value.role, now)]);
      Go(x.(pc := ReadBack, delta := d))
    case ReadBack =>
      if x.inv.None? then Abort(InvalidInvite) else
      var role := RoleOf(v, x.inv.value.tenant, actor);
      Go(x.(pc := Commit, role := if role.Some? then role else Some(x.inv.value.role)))
    case _ => Abort(NotFound)
  }

  /** The founder's membership, after this transaction's own insert made the workspace row. */
  function StepCreatePersonal(db: Db, x: Tx): Next
    requires x.call.CreatePersonal?
  {
    var CreatePersonal(user, now) := x.call;
    var v := View(db, x.delta);
    match x.pc
    case WriteMember =>
      var k := Key(user, user);
      var d := if k in v.mems then x.delta else x.delta.(put := x.delta.put[k := Mem(Owner, now)]);
      Go(x.(pc := Commit, delta := d))
    case _ => Abort(NotFound)
  }

  function Statement(db: Db, x: Tx): Next {
    match x.call
    case ChangeRole(_, _, _) => StepChangeRole(db, x)
    case RemoveMember(_, _, _) => StepRemoveMember(db, x)
    case Leave(_, _) => StepLeave(db, x)
    case CreateInvitation(_, _, _, _, _) => StepCreateInvitation(db, x)
    case RevokeInvitation(_, _, _) => StepRevokeInvitation(db, x)
    case AcceptInvitation(_, _, _) => StepAcceptInvitation(db, x)
    case CreatePersonal(_, _) => StepCreatePersonal(db, x)
  }

  // ----- locks -----

  /** The row lock transaction t waits for, when another transaction holds it: the holder. */
  function Holder(s: State, t: TxId): Option<TxId>
    requires t in s.txs
  {
    var x := s.txs[t];
    match x.pc
    case LockAccount =>
      var a := AccountOf(x.call);
      if a.Some? && a.value in s.db.users && a.value in s.acctLock && s.acctLock[a.value] != t
      then Some(s.acctLock[a.value]) else None
    case LockWorkspace =>
      var w := WorkspaceOf(x);
      if w.Some? && w.value in s.db.orgs && w.value in s.wsLock && s.wsLock[w.value] != t
      then Some(s.wsLock[w.value]) else None
    case InsertWorkspace =>
      // a unique key waits for another transaction's uncommitted insert of it; a committed row never waits
      var w := WorkspaceOf(x);
      if w.Some? && w.value !in s.db.orgs && w.value in s.wsLock && s.wsLock[w.value] != t
      then Some(s.wsLock[w.value]) else None
    case _ => None
  }

  function Released(locks: map<Id, TxId>, t: TxId): map<Id, TxId> {
    map a | a in locks && locks[a] != t :: locks[a]
  }

  /** The transaction ends: its locks go, and so does it. */
  function Ended(s: State, t: TxId, db: Db): State {
    State(db, Released(s.acctLock, t), Released(s.wsLock, t), s.txs - {t})
  }

  /** UPDATE users ...: takes the account's row lock. No row, no lock; the statement does not check. */
  function TakeAccount(s: State, t: TxId): State
    requires t in s.txs
  {
    var x := s.txs[t];
    var a := AccountOf(x.call);
    var locks := if a.Some? && a.value in s.db.users then s.acctLock[a.value := t] else s.acctLock;
    s.(acctLock := locks, txs := s.txs[t := x.(pc := LockWorkspace)])
  }

  /** UPDATE organizations ...: takes the workspace's row lock, or fails with not_found. */
  function TakeWorkspace(s: State, t: TxId): State
    requires t in s.txs
  {
    var x := s.txs[t];
    var w := WorkspaceOf(x);
    if w.None? || w.value !in s.db.orgs then Ended(s, t, s.db)
    else s.(wsLock := s.wsLock[w.value := t], txs := s.txs[t := x.(pc := AfterLock(x.call))])
  }

  /** INSERT INTO organizations ... ON CONFLICT DO NOTHING. */
  function TakeNewWorkspace(s: State, t: TxId): State
    requires t in s.txs
  {
    var x := s.txs[t];
    var w := WorkspaceOf(x);
    if w.None? || w.value in s.db.orgs then s.(txs := s.txs[t := x.(pc := Commit)])
    else s.(wsLock := s.wsLock[w.value := t],
            txs := s.txs[t := x.(pc := WriteMember, delta := x.delta.(orgs := x.delta.orgs + {w.value}))])
  }

  /** One statement of transaction t. It is not taken while t waits for a lock. */
  function Fire(s: State, t: TxId): State
    requires t in s.txs
  {
    var x := s.txs[t];
    match x.pc
    case LockAccount => TakeAccount(s, t)
    case LockWorkspace => TakeWorkspace(s, t)
    case InsertWorkspace => TakeNewWorkspace(s, t)
    case Commit => Ended(s, t, View(s.db, x.delta))
    case _ =>
      match Statement(s.db, x)
      case Go(y) => s.(txs := s.txs[t := y])
      case Abort(_) => Ended(s, t, s.db)
  }

  predicate Enabled(s: State, t: TxId) {
    t in s.txs && Holder(s, t).None?
  }

  /** A transaction's new invitation id is a fresh random one: on no row and in no other transaction. */
  predicate FreshCall(s: State, c: Call) {
    && FreshId(s.db, c)
    && (c.CreateInvitation? ==>
          forall t :: t in s.txs && s.txs[t].call.CreateInvitation? ==> s.txs[t].call.id != c.id)
  }

  /** A new account's id is a fresh random one: no transaction under way names it. */
  predicate FreshAccount(s: State, a: Id) {
    && a !in s.db.users
    && (forall t :: t in s.txs ==> AccountOf(s.txs[t].call) != Some(a))
  }

  datatype Label = Starts(t: TxId, call: Call) | Runs(t: TxId) | SignsUp(acct: Id, user: User)

  predicate Allowed(s: State, l: Label) {
    match l
    case Starts(t, c) => t !in s.txs && Opens(c) && FreshCall(s, c)
    case Runs(t) => Enabled(s, t)
    case SignsUp(a, u) => FreshAccount(s, a)
  }

  function Apply(s: State, l: Label): State
    requires Allowed(s, l)
  {
    match l
    case Starts(t, c) => s.(txs := s.txs[t := Begin(c)])
    case Runs(t) => Fire(s, t)
    case SignsUp(a, u) => s.(db := s.db.(users := s.db.users[a := u]))
  }

  // ----- the invariant -----

  function Stage(pc: Pc): nat {
    match pc
    case FindInvitation => 0
    case LockAccount => 1
    case LockWorkspace => 2
    case InsertWorkspace => 2
    case ReadActor => 3
    case ReadTarget => 4
    case CountOwners => 5
    case CountWorkspaces => 6
    case FindMember => 7
    case ReadPending => 8
    case RevokePending => 9
    case CountPending => 10
    case UseInvitation => 11
    case ReadAccount => 12
    case RevokeSent => 13
    case WriteMember => 14
    case InsertInvitation => 15
    case ReadBack => 16
    case Commit => 17
  }

  ghost predicate KnowsChangeRole(db: Db, x: Tx)
    requires x.call.ChangeRole?
  {
    var ChangeRole(who, member, role) := x.call;
    var w := who.tenant;
    var k := Key(w, member);
    && x.pc in {LockWorkspace, ReadActor, ReadTarget, CountOwners, WriteMember, Commit}
    && (Stage(x.pc) > 3 ==> x.me.Some? && x.me == RoleOf(db, w, who.actor))
    && (Stage(x.pc) > 4 ==> && x.current.Some? && x.current == RoleOf(db, w, member)
                            && MayManage(x.me.value, x.current, Some(role)))
    && (Stage(x.pc) > 5 ==> x.current == Some(Owner) && role != Owner ==> |OwnerKeys(db, w)| > 1)
    && (x.pc.Commit? ==> x.role == x.current)
    && x.delta == if x.pc.Commit? && x.current != Some(role)
                  then NoWrites.(put := map[k := db.mems[k].(role := role)]) else NoWrites
  }

  ghost predicate KnowsRemoveMember(db: Db, x: Tx)
    requires x.call.RemoveMember?
  {
    var RemoveMember(who, member, now) := x.call;
    var w := who.tenant;
    && x.pc in {LockAccount, LockWorkspace, ReadActor, ReadTarget, CountOwners, CountWorkspaces, RevokeSent, WriteMember, Commit}
    && member != who.actor
    && (Stage(x.pc) > 3 ==> x.me.Some? && x.me == RoleOf(db, w, who.actor))
    && (Stage(x.pc) > 4 ==> && x.current.Some? && x.current == RoleOf(db, w, member)
                            && MayManage(x.me.value, x.current, None))
    && (Stage(x.pc) > 5 ==> x.current == Some(Owner) ==> |OwnerKeys(db, w)| > 1)
    && (Stage(x.pc) > 6 ==> |KeysOf(db, member)| > 1)
    && (x.pc.Commit? ==> x.role == x.current)
    && x.delta == Delta({}, map[], if x.pc.Commit? then {Key(w, member)} else {},
                        if Stage(x.pc) > 13 then SentRevoked(db, w, member, now) else map[])
  }

  ghost predicate KnowsLeave(db: Db, x: Tx)
    requires x.call.Leave?
  {
    var Leave(who, now) := x.call;
    var w := who.tenant;
    && x.pc in {LockAccount, LockWorkspace, ReadTarget, CountOwners, CountWorkspaces, RevokeSent, WriteMember, Commit}
    && (Stage(x.pc) > 4 ==> x.current.Some? && x.current == RoleOf(db, w, who.actor))
    && (Stage(x.pc) > 5 ==> x.current == Some(Owner) ==> |OwnerKeys(db, w)| > 1)
    && (Stage(x.pc) > 6 ==> |KeysOf(db, who.actor)| > 1)
    && (x.pc.Commit? ==> x.role == x.current)
    && x.delta == Delta({}, map[], if x.pc.Commit? then {Key(w, who.actor)} else {},
                        if Stage(x.pc) > 13 then SentRevoked(db, w, who.actor, now) else map[])
  }

  ghost predicate KnowsCreateInvitation(db: Db, x: Tx)
    requires x.call.CreateInvitation?
  {
    var CreateInvitation(who, email, role, id, now) := x.call;
    var w := who.tenant;
    var replaced := ReplacedRevoked(db, w, email, now);
    && x.pc in {LockWorkspace, ReadActor, FindMember, ReadPending, RevokePending, CountPending, InsertInvitation, Commit}
    && MayManage(who.role, None, Some(role))
    && id !in db.invs
    && (Stage(x.pc) > 3 ==> && x.me.Some? && x.me == RoleOf(db, w, who.actor)
                            && MayManage(x.me.value, None, Some(role)))
    && (Stage(x.pc) > 7 ==> !IsMemberByEmail(db, w, email))
    && (Stage(x.pc) > 8 ==> MayReplace(db, x.me.value, w, email, now))
    && (Stage(x.pc) > 10 ==> |PendingIds(db.invs + replaced, w, now)| < MAX_PENDING_INVITES)
    && x.role.None?
    && x.delta == NoWrites.(invs := if x.pc.Commit? then replaced[id := NewInvitation(who, email, role, now)]
                                    else if Stage(x.pc) > 9 then replaced else map[])
  }

  ghost predicate KnowsRevokeInvitation(db: Db, x: Tx)
    requires x.call.RevokeInvitation?
  {
    var RevokeInvitation(who, id, now) := x.call;
    var w := who.tenant;
    && x.pc in {LockWorkspace, ReadActor, ReadPending, RevokePending, Commit}
    && (Stage(x.pc) > 3 ==> x.me.Some? && x.me == RoleOf(db, w, who.actor))
    && (Stage(x.pc) > 8 ==> && id in db.invs && db.invs[id].tenant == w && Unused(db.invs[id])
                            && MayManage(x.me.value, None, Some(db.invs[id].role))
                            && x.role == Some(db.invs[id].role))
    && x.delta == if x.pc.Commit? then NoWrites.(invs := map[id := db.invs[id].(revokedAt := Some(now))]) else NoWrites
  }

  ghost predicate KnowsAcceptInvitation(db: Db, x: Tx)
    requires x.call.AcceptInvitation?
  {
    var AcceptInvitation(actor, token, now) := x.call;
    && x.pc in {FindInvitation, LockAccount, LockWorkspace, ReadActor, UseInvitation, ReadAccount, WriteMember, ReadBack, Commit}
    && (Stage(x.pc) == 0 ==> x.delta == NoWrites)
    && (Stage(x.pc) > 0 ==>
          && x.inv.Some? && token in db.invs && SameOffer(x.inv.value, db.invs[token])
          && x.inv.value.expiresAt > now
          && var w := x.inv.value.tenant;
             var k := Key(w, actor);
          && (Stage(x.pc) > 3 ==> && x.me.Some? && x.me == RoleOf(db, w, x.inv.value.invitedBy)
                                  && MayManage(x.me.value, None, Some(x.inv.value.role)))
          && (Stage(x.pc) > 11 ==> Unused(db.invs[token]))
          && (Stage(x.pc) > 12 ==> && actor in db.users && db.users[actor].email == x.inv.value.email
                                   && db.users[actor].verified)
          && (x.pc.Commit? ==> x.role == Some(if k in db.mems then db.mems[k].role else x.inv.value.role))
          && x.delta == Delta({},
               if Stage(x.pc) > 14 && k !in db.mems then map[k := Mem(x.inv.value.role, now)] else map[], {},
               if Stage(x.pc) > 11
               then map[token := db.invs[token].(acceptedAt := Some(now), acceptedBy := Some(actor))] else map[]))
  }

  ghost predicate KnowsCreatePersonal(db: Db, x: Tx)
    requires x.call.CreatePersonal?
  {
    var CreatePersonal(user, now) := x.call;
    && x.pc in {InsertWorkspace, WriteMember, Commit}
    && user in db.users
    && x.role.None?
    && (x.pc.InsertWorkspace? ==> x.delta == NoWrites)
    && (x.pc.WriteMember? ==> user !in db.orgs && x.delta == NoWrites.(orgs := {user}))
    && (x.pc.Commit? ==>
          || (user in db.orgs && x.delta == NoWrites)
          || (user !in db.orgs && x.delta == Delta({user}, map[Key(user, user) := Mem(Owner, now)], {}, map[])))
  }

  /**
    What a transaction has learnt is still true of the committed tables, and its writes are the ones its
    serial form would make from those tables.
  */
  ghost predicate Knows(db: Db, x: Tx) {
    match x.call
    case ChangeRole(_, _, _) => KnowsChangeRole(db, x)
    case RemoveMember(_, _, _) => KnowsRemoveMember(db, x)
    case Leave(_, _) => KnowsLeave(db, x)
    case CreateInvitation(_, _, _, _, _) => KnowsCreateInvitation(db, x)
    case RevokeInvitation(_, _, _) => KnowsRevokeInvitation(db, x)
    case AcceptInvitation(_, _, _) => KnowsAcceptInvitation(db, x)
    case CreatePersonal(_, _) => KnowsCreatePersonal(db, x)
  }

  /** Whether x has gone past its workspace lock statement and so holds that lock. */
  predicate PastWorkspace(db: Db, x: Tx) {
    && Stage(x.pc) > 2
    && (x.call.CreatePersonal? ==> WorkspaceOf(x).Some? && WorkspaceOf(x).value !in db.orgs)
  }

  ghost predicate HoldsLocks(s: State, t: TxId)
    requires t in s.txs
  {
    var x := s.txs[t];
    && (Stage(x.pc) > 1 && AccountOf(x.call).Some? && AccountOf(x.call).value in s.db.users ==>
          AccountOf(x.call).value in s.acctLock && s.acctLock[AccountOf(x.call).value] == t)
    && (PastWorkspace(s.db, x) ==>
          && WorkspaceOf(x).Some? && WorkspaceOf(x).value in s.wsLock && s.wsLock[WorkspaceOf(x).value] == t
          && (!x.call.CreatePersonal? ==> WorkspaceOf(x).value in s.db.orgs))
  }

  /** A lock is held only by a running transaction that has passed the statement taking it. */
  ghost predicate LocksOwned(s: State) {
    && (forall a :: a in s.acctLock ==>
          s.acctLock[a] in s.txs && Stage(s.txs[s.acctLock[a]].pc) > 1 && AccountOf(s.txs[s.acctLock[a]].call) == Some(a))
    && (forall w :: w in s.wsLock ==>
          s.wsLock[w] in s.txs && Stage(s.txs[s.wsLock[w]].pc) > 2 && WorkspaceOf(s.txs[s.wsLock[w]]) == Some(w))
  }

  /** Every running transaction's knowledge is true. */
  ghost predicate AllKnow(s: State) {
    forall t :: t in s.txs ==> Knows(s.db, s.txs[t])
  }

  /** The tables are valid, locks are where they should be, and new invitation ids differ. */
  ghost predicate Orderly(s: State) {
    && ValidDb(s.db)
    && LocksOwned(s)
    && (forall t :: t in s.txs ==> HoldsLocks(s, t))
    && NewIdsDiffer(s.txs)
  }

  /** No two transactions under way insert the same invitation id. */
  ghost predicate NewIdsDiffer(txs: map<TxId, Tx>) {
    forall t, u :: t in txs && u in txs && t != u && txs[t].call.CreateInvitation? && txs[u].call.CreateInvitation? ==>
      txs[t].call.id != txs[u].call.id
  }

  lemma SameCallsDiffer(txs: map<TxId, Tx>, txs': map<TxId, Tx>)
    requires NewIdsDiffer(txs) && forall t :: t in txs' ==> t in txs && txs'[t].call == txs[t].call
    ensures NewIdsDiffer(txs')
  {
  }

  ghost predicate Valid(s: State) {
    Orderly(s) && AllKnow(s)
  }

  // ----- a transaction's own statements keep what it knows -----

  lemma ViewNothing(db: Db)
    ensures View(db, NoWrites) == db
  {
    assert (db.mems - {}) + map[] == db.mems;
  }

  /** A statement that is neither a lock nor the commit. */
  predicate Plain(pc: Pc) {
    pc.FindInvitation? || (Stage(pc) > 2 && !pc.Commit?)
  }

  /** After a plain statement the transaction is further on, and what it knows is true. */
  ghost predicate StatementSound(db: Db, x: Tx) {
    match Statement(db, x)
    case Abort(_) => true
    case Go(y) =>
      && Knows(db, y) && y.call == x.call && Stage(y.pc) > Stage(x.pc)
      && (!x.pc.FindInvitation? ==> WorkspaceOf(y) == WorkspaceOf(x))
      && (x.pc.FindInvitation? ==> y.pc == LockAccount)
  }

  lemma OwnChangeRole(db: Db, x: Tx)
    requires x.call.ChangeRole? && Knows(db, x) && Plain(x.pc)
    ensures StatementSound(db, x)
  {
    ViewNothing(db);
  }

  lemma OwnRemoveMemberChecks(db: Db, x: Tx)
    requires x.call.RemoveMember? && Knows(db, x) && x.pc in {ReadActor, ReadTarget, CountOwners, CountWorkspaces}
    ensures StatementSound(db, x)
  {
    ViewNothing(db);
  }

  lemma OwnRemoveMemberWrites(db: Db, x: Tx)
    requires x.call.RemoveMember? && Knows(db, x) && x.pc in {RevokeSent, WriteMember}
    ensures StatementSound(db, x)
  {
    ViewNothing(db);
    var sent := SentRevoked(db, x.call.who.tenant, x.call.member, x.call.now);
    assert map[] + sent == sent;
  }

  lemma OwnRemoveMember(db: Db, x: Tx)
    requires x.call.RemoveMember? && Knows(db, x) && Plain(x.pc)
    ensures StatementSound(db, x)
  {
    if x.pc in {ReadActor, ReadTarget, CountOwners, CountWorkspaces} {
      OwnRemoveMemberChecks(db, x);
    } else {
      OwnRemoveMemberWrites(db, x);
    }
  }

  lemma OwnLeaveChecks(db: Db, x: Tx)
    requires x.call.Leave? && Knows(db, x) && x.pc in {ReadTarget, CountOwners, CountWorkspaces}
    ensures StatementSound(db, x)
  {
    ViewNothing(db);
  }

  lemma OwnLeaveWrites(db: Db, x: Tx)
    requires x.call.Leave? && Knows(db, x) && x.pc in {RevokeSent, WriteMember}
    ensures StatementSound(db, x)
  {
    ViewNothing(db);
    var sent := SentRevoked(db, x.call.who.tenant, x.call.who.actor, x.call.now);
    assert map[] + sent == sent;
  }

  lemma OwnLeave(db: Db, x: Tx)
    requires x.call.Leave? && Knows(db, x) && Plain(x.pc)
    ensures StatementSound(db, x)
  {
    if x.pc in {ReadTarget, CountOwners, CountWorkspaces} {
      OwnLeaveChecks(db, x);
    } else {
      OwnLeaveWrites(db, x);
    }
  }

  lemma OwnCreateInvitationChecks(db: Db, x: Tx)
    requires x.call.CreateInvitation? && Knows(db, x) && x.pc in {ReadActor, FindMember, ReadPending}
    ensures StatementSound(db, x)
  {
    ViewNothing(db);
  }

  lemma OwnRevokePending(db: Db, x: Tx)
    requires x.call.CreateInvitation? && Knows(db, x) && x.pc == RevokePending
    ensures StatementSound(db, x)
  {
    ViewNothing(db);
    var replaced := ReplacedRevoked(db, x.call.who.tenant, x.call.email, x.call.now);
    assert map[] + replaced == replaced;
  }

  lemma OwnCountPending(db: Db, x: Tx)
    requires x.call.CreateInvitation? && Knows(db, x) && x.pc == CountPending
    ensures StatementSound(db, x)
  {
  }

  lemma OwnInsertInvitation(db: Db, x: Tx)
    requires x.call.CreateInvitation? && Knows(db, x) && x.pc == InsertInvitation
    ensures StatementSound(db, x)
  {
  }

  lemma OwnCreateInvitation(db: Db, x: Tx)
    requires x.call.CreateInvitation? && Knows(db, x) && Plain(x.pc)
    ensures StatementSound(db, x)
  {
    if x.pc in {ReadActor, FindMember, ReadPending} {
      OwnCreateInvitationChecks(db, x);
    } else if x.pc == RevokePending {
      OwnRevokePending(db, x);
    } else if x.pc == CountPending {
      OwnCountPending(db, x);
    } else {
      OwnInsertInvitation(db, x);
    }
  }

  lemma OwnRevokeInvitation(db: Db, x: Tx)
    requires x.call.RevokeInvitation? && Knows(db, x) && Plain(x.pc)
    ensures StatementSound(db, x)
  {
    ViewNothing(db);
  }

  lemma OwnAcceptInvitationChecks(db: Db, x: Tx)
    requires x.call.AcceptInvitation? && Knows(db, x) && x.pc in {FindInvitation, ReadActor, ReadAccount}
    ensures StatementSound(db, x)
  {
    ViewNothing(db);
  }

  lemma OwnAcceptInvitationUse(db: Db, x: Tx)
    requires x.call.AcceptInvitation? && Knows(db, x) && x.pc == UseInvitation
    ensures StatementSound(db, x)
  {
  }

  lemma OwnAcceptInvitationJoin(db: Db, x: Tx)
    requires x.call.AcceptInvitation? && Knows(db, x) && x.pc in {WriteMember, ReadBack}
    ensures StatementSound(db, x)
  {
    assert db.mems - {} == db.mems;
  }

  lemma OwnAcceptInvitation(db: Db, x: Tx)
    requires x.call.AcceptInvitation? && Knows(db, x) && Plain(x.pc)
    ensures StatementSound(db, x)
  {
    if x.pc in {FindInvitation, ReadActor, ReadAccount} {
      OwnAcceptInvitationChecks(db, x);
    } else if x.pc == UseInvitation {
      OwnAcceptInvitationUse(db, x);
    } else {
      OwnAcceptInvitationJoin(db, x);
    }
  }

  lemma OwnCreatePersonal(db: Db, x: Tx)
    requires ValidDb(db) && x.call.CreatePersonal? && Knows(db, x) && Plain(x.pc)
    ensures StatementSound(db, x)
  {
  }

  /** A plain statement reads the committed tables and leaves the transaction's knowledge true. */
  lemma OwnStatement(db: Db, x: Tx)
    requires ValidDb(db) && Knows(db, x) && Plain(x.pc)
    ensures StatementSound(db, x)
  {
    match x.call
    case ChangeRole(_, _, _) => OwnChangeRole(db, x);
    case RemoveMember(_, _, _) => OwnRemoveMember(db, x);
    case Leave(_, _) => OwnLeave(db, x);
    case CreateInvitation(_, _, _, _, _) => OwnCreateInvitation(db, x);
    case RevokeInvitation(_, _, _) => OwnRevokeInvitation(db, x);
    case AcceptInvitation(_, _, _) => OwnAcceptInvitation(db, x);
    case CreatePersonal(_, _) => OwnCreatePersonal(db, x);
  }

  // ----- at its commit, a transaction is its serial form -----

  /** What the transaction has buffered is what its serial form does to these tables, with the same answer. */
  ghost predicate IsSerial(db: Db, x: Tx) {
    FreshId(db, x.call) && Serial(db, x.call) == Done(View(db, x.delta), x.role)
  }

  lemma CommitChangeRole(db: Db, x: Tx)
    requires ValidDb(db) && x.call.ChangeRole? && Knows(db, x) && x.pc.Commit?
    ensures IsSerial(db, x)
  {
    ViewNothing(db);
    assert db.orgs + {} == db.orgs && db.invs + map[] == db.invs && db.mems - {} == db.mems;
    var ChangeRole(who, member, role) := x.call;
    assert Key(who.tenant, who.actor) in db.mems;
  }

  lemma CommitRemoveMember(db: Db, x: Tx)
    requires ValidDb(db) && x.call.RemoveMember? && Knows(db, x) && x.pc.Commit?
    ensures IsSerial(db, x)
  {
  }

  lemma CommitLeave(db: Db, x: Tx)
    requires ValidDb(db) && x.call.Leave? && Knows(db, x) && x.pc.Commit?
    ensures IsSerial(db, x)
  {
  }

  lemma CommitCreateInvitation(db: Db, x: Tx)
    requires ValidDb(db) && x.call.CreateInvitation? && Knows(db, x) && x.pc.Commit?
    ensures IsSerial(db, x)
  {
    ViewNothing(db);
    assert db.orgs + {} == db.orgs && db.invs + map[] == db.invs && db.mems - {} == db.mems;
    var CreateInvitation(who, email, role, id, now) := x.call;
    assert Key(who.tenant, who.actor) in db.mems;
    var replaced := ReplacedRevoked(db, who.tenant, email, now);
    var i := NewInvitation(who, email, role, now);
    assert db.invs + replaced[id := i] == (db.invs + replaced)[id := i];
  }

  lemma CommitRevokeInvitation(db: Db, x: Tx)
    requires ValidDb(db) && x.call.RevokeInvitation? && Knows(db, x) && x.pc.Commit?
    ensures IsSerial(db, x)
  {
    ViewNothing(db);
    assert db.orgs + {} == db.orgs && db.invs + map[] == db.invs && db.mems - {} == db.mems;
    assert Key(x.call.who.tenant, x.call.who.actor) in db.mems;
  }

  lemma CommitAcceptInvitation(db: Db, x: Tx)
    requires ValidDb(db) && x.call.AcceptInvitation? && Knows(db, x) && x.pc.Commit?
    ensures IsSerial(db, x)
  {
    ViewNothing(db);
    assert db.orgs + {} == db.orgs && db.invs + map[] == db.invs && db.mems - {} == db.mems;
    assert SameOffer(x.inv.value, db.invs[x.call.token]);
  }

  lemma CommitCreatePersonal(db: Db, x: Tx)
    requires ValidDb(db) && x.call.CreatePersonal? && Knows(db, x) && x.pc.Commit?
    ensures IsSerial(db, x)
  {
  }

  /**
    The refinement, for one transaction: what its statements have buffered by the time it commits is exactly
    what the whole transaction would do to the committed tables if it ran alone at that moment.
  */
  lemma CommitIsSerial(db: Db, x: Tx)
    requires ValidDb(db) && Knows(db, x) && x.pc.Commit?
    ensures IsSerial(db, x)
  {
    match x.call
    case ChangeRole(_, _, _) => CommitChangeRole(db, x);
    case RemoveMember(_, _, _) => CommitRemoveMember(db, x);
    case Leave(_, _) => CommitLeave(db, x);
    case CreateInvitation(_, _, _, _, _) => CommitCreateInvitation(db, x);
    case RevokeInvitation(_, _, _) => CommitRevokeInvitation(db, x);
    case AcceptInvitation(_, _, _) => CommitAcceptInvitation(db, x);
    case CreatePersonal(_, _) => CommitCreatePersonal(db, x);
  }

  // ----- another transaction's commit changes nothing a lock holder knows -----

  /** The rows of workspace w are the same in both. */
  ghost predicate SameWorkspace(db: Db, db': Db, w: Id) {
    && (w in db.orgs <==> w in db'.orgs)
    && (forall k: Key :: k.ws == w ==> (k in db.mems <==> k in db'.mems))
    && (forall k: Key :: k.ws == w && k in db.mems ==> db'.mems[k] == db.mems[k])
    && (forall i :: i in db.invs && db.invs[i].tenant == w ==> i in db'.invs && db'.invs[i] == db.invs[i])
    && (forall i :: i in db'.invs && db'.invs[i].tenant == w ==> i in db.invs && db.invs[i] == db'.invs[i])
  }

  /** Rows that only ever grow: accounts, workspaces and what invitations offer. */
  ghost predicate Grows(db: Db, db': Db) {
    && db.orgs <= db'.orgs
    && (forall u :: u in db.users ==> u in db'.users && db'.users[u] == db.users[u])
    && (forall i :: i in db.invs ==> i in db'.invs && SameOffer(db.invs[i], db'.invs[i]))
  }

  ghost predicate KeepsAccount(db: Db, db': Db, a: Id) {
    forall k :: k in db.mems && k.acct == a ==> k in db'.mems
  }

  /** What a step of others must leave alone for a transaction x under way. */
  ghost predicate Undisturbed(db: Db, db': Db, x: Tx) {
    && Grows(db, db')
    && (PastWorkspace(db, x) ==> WorkspaceOf(x).Some? && SameWorkspace(db, db', WorkspaceOf(x).value))
    && (AccountOf(x.call).Some? && AccountOf(x.call).value in db.users && Stage(x.pc) > 1 ==>
          KeepsAccount(db, db', AccountOf(x.call).value))
    && (x.call.CreateInvitation? ==> x.call.id !in db'.invs)
  }

  lemma SameReads(db: Db, db': Db, w: Id)
    requires Grows(db, db') && SameWorkspace(db, db', w)
    ensures forall a :: RoleOf(db', w, a) == RoleOf(db, w, a)
    ensures OwnerKeys(db', w) == OwnerKeys(db, w)
    ensures forall from, now :: SentRevoked(db', w, from, now) == SentRevoked(db, w, from, now)
  {
  }

  lemma SameInvitationReads(db: Db, db': Db, w: Id, email: Email, now: int)
    requires ValidDb(db) && Grows(db, db') && SameWorkspace(db, db', w)
    ensures ReplacedRevoked(db', w, email, now) == ReplacedRevoked(db, w, email, now)
    ensures PendingIds(db'.invs + ReplacedRevoked(db', w, email, now), w, now)
         == PendingIds(db.invs + ReplacedRevoked(db, w, email, now), w, now)
    ensures IsMemberByEmail(db', w, email) == IsMemberByEmail(db, w, email)
    ensures forall me :: MayReplace(db', me, w, email, now) == MayReplace(db, me, w, email, now)
  {
  }

  lemma KeysKept(db: Db, db': Db, a: Id)
    requires KeepsAccount(db, db', a)
    ensures |KeysOf(db, a)| <= |KeysOf(db', a)|
  {
    SubsetSize(KeysOf(db, a), KeysOf(db', a));
  }

  lemma StillKnowsRemoveMember(db: Db, db': Db, x: Tx)
    requires x.call.RemoveMember?
    requires ValidDb(db) && ValidDb(db') && Knows(db, x) && Undisturbed(db, db', x)
    ensures Knows(db', x)
  {
    var RemoveMember(who, member, now) := x.call;
    if PastWorkspace(db, x) { SameReads(db, db', who.tenant); }
    if Stage(x.pc) > 4 {
      assert Key(who.tenant, member) in db.mems;
      KeysKept(db, db', member);
    }
  }

  lemma StillKnowsLeave(db: Db, db': Db, x: Tx)
    requires x.call.Leave?
    requires ValidDb(db) && ValidDb(db') && Knows(db, x) && Undisturbed(db, db', x)
    ensures Knows(db', x)
  {
    var Leave(who, now) := x.call;
    if PastWorkspace(db, x) { SameReads(db, db', who.tenant); }
    if Stage(x.pc) > 4 {
      assert Key(who.tenant, who.actor) in db.mems;
      KeysKept(db, db', who.actor);
    }
  }

  lemma StillKnowsCreateInvitation(db: Db, db': Db, x: Tx)
    requires x.call.CreateInvitation?
    requires ValidDb(db) && ValidDb(db') && Knows(db, x) && Undisturbed(db, db', x)
    ensures Knows(db', x)
  {
    var CreateInvitation(who, email, role, id, now) := x.call;
    if PastWorkspace(db, x) {
      SameReads(db, db', who.tenant);
      SameInvitationReads(db, db', who.tenant, email, now);
    }
  }

  lemma StillKnowsAcceptInvitation(db: Db, db': Db, x: Tx)
    requires x.call.AcceptInvitation?
    requires ValidDb(db) && ValidDb(db') && Knows(db, x) && Undisturbed(db, db', x)
    ensures Knows(db', x)
  {
  }

  /** What a transaction knows survives whatever others commit without its locks. */
  lemma StillKnows(db: Db, db': Db, x: Tx)
    requires ValidDb(db) && ValidDb(db') && Knows(db, x) && Undisturbed(db, db', x)
    ensures Knows(db', x)
  {
    match x.call
    case RemoveMember(_, _, _) => StillKnowsRemoveMember(db, db', x);
    case Leave(_, _) => StillKnowsLeave(db, db', x);
    case CreateInvitation(_, _, _, _, _) => StillKnowsCreateInvitation(db, db', x);
    case AcceptInvitation(_, _, _) => StillKnowsAcceptInvitation(db, db', x);
    case ChangeRole(_, _, _) =>
      if PastWorkspace(db, x) { SameReads(db, db', WorkspaceOf(x).value); }
    case RevokeInvitation(_, _, _) =>
      if PastWorkspace(db, x) { SameReads(db, db', WorkspaceOf(x).value); }
    case CreatePersonal(_, _) =>
  }

  /** What a commit writes: only its own workspace's rows, its own account's membership, its own new id. */
  ghost predicate InFootprint(db: Db, x: Tx) {
    var db' := View(db, x.delta);
    && Grows(db, db')
    && (!PastWorkspace(db, x) ==> db' == db)
    && (PastWorkspace(db, x) ==> WorkspaceOf(x).Some? && forall w: Id :: w != WorkspaceOf(x).value ==> SameWorkspace(db, db', w))
    && (forall k :: k in db.mems && k !in db'.mems ==> AccountOf(x.call) == Some(k.acct))
    && (forall i :: i in db'.invs && i !in db.invs ==> x.call.CreateInvitation? && i == x.call.id)
  }

  /** Invitation rows written for one workspace leave every other workspace alone. */
  lemma InvitationWrites(db: Db, d: map<Id, Inv>, w: Id)
    requires forall i :: i in d ==> d[i].tenant == w
    requires forall i :: i in d && i in db.invs ==> SameOffer(db.invs[i], d[i])
    ensures Grows(db, db.(invs := db.invs + d))
    ensures forall v: Id :: v != w ==> SameWorkspace(db, db.(invs := db.invs + d), v)
  {
  }

  /** Deleting one membership leaves every other workspace alone. */
  lemma MemberDropped(db: Db, k: Key)
    ensures Grows(db, db.(mems := db.mems - {k}))
    ensures forall v: Id :: v != k.ws ==> SameWorkspace(db, db.(mems := db.mems - {k}), v)
  {
  }

  lemma SameTwice(a: Db, b: Db, c: Db, w: Id)
    requires Grows(a, b) && Grows(b, c)
    requires forall v: Id :: v != w ==> SameWorkspace(a, b, v)
    requires forall v: Id :: v != w ==> SameWorkspace(b, c, v)
    ensures Grows(a, c)
    ensures forall v: Id :: v != w ==> SameWorkspace(a, c, v)
  {
    forall v: Id | v != w ensures SameWorkspace(a, c, v) {
      assert SameWorkspace(a, b, v) && SameWorkspace(b, c, v);
    }
  }

  lemma FootprintRemoval(db: Db, x: Tx, k: Key)
    requires ValidDb(db) && Knows(db, x) && x.pc.Commit?
    requires || (x.call.RemoveMember? && k == Key(x.call.who.tenant, x.call.member))
             || (x.call.Leave? && k == Key(x.call.who.tenant, x.call.who.actor))
    ensures InFootprint(db, x)
  {
    var gone := db.(mems := db.mems - {k});
    MemberDropped(db, k);
    InvitationWrites(gone, x.delta.invs, k.ws);
    SameTwice(db, gone, gone.(invs := db.invs + x.delta.invs), k.ws);
    assert db.orgs + {} == db.orgs;
    assert (db.mems - {k}) + map[] == db.mems - {k};
    assert View(db, x.delta) == gone.(invs := db.invs + x.delta.invs);
  }

  lemma FootprintChangeRole(db: Db, x: Tx)
    requires ValidDb(db) && x.call.ChangeRole? && Knows(db, x) && x.pc.Commit?
    ensures InFootprint(db, x)
  {
    ViewNothing(db);
  }

  lemma FootprintCreateInvitation(db: Db, x: Tx)
    requires ValidDb(db) && x.call.CreateInvitation? && Knows(db, x) && x.pc.Commit?
    ensures InFootprint(db, x)
  {
    ViewNothing(db);
    InvitationWrites(db, x.delta.invs, x.call.who.tenant);
    assert View(db, x.delta) == db.(invs := db.invs + x.delta.invs);
  }

  lemma FootprintRevokeInvitation(db: Db, x: Tx)
    requires ValidDb(db) && x.call.RevokeInvitation? && Knows(db, x) && x.pc.Commit?
    ensures InFootprint(db, x)
  {
    ViewNothing(db);
  }

  lemma FootprintAcceptInvitation(db: Db, x: Tx)
    requires ValidDb(db) && x.call.AcceptInvitation? && Knows(db, x) && x.pc.Commit?
    ensures InFootprint(db, x)
  {
    ViewNothing(db);
  }

  lemma FootprintCreatePersonal(db: Db, x: Tx)
    requires ValidDb(db) && x.call.CreatePersonal? && Knows(db, x) && x.pc.Commit?
    ensures InFootprint(db, x)
  {
    ViewNothing(db);
  }

  lemma CommitFootprint(db: Db, x: Tx)
    requires ValidDb(db) && Knows(db, x) && x.pc.Commit?
    ensures InFootprint(db, x)
  {
    match x.call
    case ChangeRole(_, _, _) => FootprintChangeRole(db, x);
    case RemoveMember(who, member, _) => FootprintRemoval(db, x, Key(who.tenant, member));
    case Leave(who, _) => FootprintRemoval(db, x, Key(who.tenant, who.actor));
    case CreateInvitation(_, _, _, _, _) => FootprintCreateInvitation(db, x);
    case RevokeInvitation(_, _, _) => FootprintRevokeInvitation(db, x);
    case AcceptInvitation(_, _, _) => FootprintAcceptInvitation(db, x);
    case CreatePersonal(_, _) => FootprintCreatePersonal(db, x);
  }

  // ----- every step -----

  /** One transaction moves on within its locks; the rest stay as they are. */
  lemma Moves(s: State, t: TxId, y: Tx)
    requires Orderly(s) && t in s.txs
    requires
      var x := s.txs[t];
      && y.call == x.call && Stage(y.pc) > Stage(x.pc)
      && ((WorkspaceOf(y) == WorkspaceOf(x) && Stage(x.pc) > 2) || (x.pc.FindInvitation? && y.pc.LockAccount?))
    ensures Orderly(s.(txs := s.txs[t := y]))
  {
    var s' := s.(txs := s.txs[t := y]);
    SameCallsDiffer(s.txs, s'.txs);
    assert LocksOwned(s');
    forall u | u in s'.txs ensures HoldsLocks(s', u) { assert HoldsLocks(s, u); }
  }

  lemma TakesAccount(s: State, t: TxId)
    requires Orderly(s) && Enabled(s, t) && s.txs[t].pc.LockAccount?
    ensures Orderly(TakeAccount(s, t))
  {
    var x := s.txs[t];
    var y := x.(pc := LockWorkspace);
    var s' := TakeAccount(s, t);
    assert s'.txs == s.txs[t := y] && s'.wsLock == s.wsLock && s'.db == s.db;
    SameCallsDiffer(s.txs, s'.txs);
    AccountLockOwned(s, t);
    forall u | u in s'.txs ensures HoldsLocks(s', u) { AccountLockHeld(s, t, u); }
  }

  lemma AccountLockOwned(s: State, t: TxId)
    requires LocksOwned(s) && Enabled(s, t) && s.txs[t].pc.LockAccount?
    ensures LocksOwned(TakeAccount(s, t))
  {
  }

  lemma AccountLockHeld(s: State, t: TxId, u: TxId)
    requires LocksOwned(s) && Enabled(s, t) && s.txs[t].pc.LockAccount? && u in s.txs && HoldsLocks(s, u)
    ensures HoldsLocks(TakeAccount(s, t), u)
  {
  }

  lemma Ends(s: State, t: TxId, db': Db)
    requires Orderly(s) && t in s.txs && ValidDb(db')
    requires Grows(s.db, db') && db'.users == s.db.users
    requires forall w :: w in db'.orgs && w !in s.db.orgs ==> WorkspaceOf(s.txs[t]) == Some(w) && PastWorkspace(s.db, s.txs[t])
    ensures Orderly(Ended(s, t, db'))
  {
    var s' := Ended(s, t, db');
    SameCallsDiffer(s.txs, s'.txs);
    EndsLocks(s, t, db');
    forall u | u in s'.txs ensures HoldsLocks(s', u) { EndsHolds(s, t, db', u); }
  }

  lemma EndsLocks(s: State, t: TxId, db': Db)
    requires LocksOwned(s) && t in s.txs
    ensures LocksOwned(Ended(s, t, db'))
  {
  }

  lemma EndsHolds(s: State, t: TxId, db': Db, u: TxId)
    requires t in s.txs && u in s.txs && u != t && HoldsLocks(s, u) && LocksOwned(s)
    requires Grows(s.db, db') && db'.users == s.db.users
    requires HoldsLocks(s, t)
    requires forall w :: w in db'.orgs && w !in s.db.orgs ==> WorkspaceOf(s.txs[t]) == Some(w) && PastWorkspace(s.db, s.txs[t])
    ensures HoldsLocks(Ended(s, t, db'), u)
  {
  }

  /** A workspace lock nobody else holds goes to t, which moves past the statement that takes it. */
  lemma GrantsWorkspace(s: State, t: TxId, w: Id, y: Tx)
    requires Orderly(s) && t in s.txs && Stage(s.txs[t].pc) == 2 && Stage(y.pc) > 2
    requires y.call == s.txs[t].call && WorkspaceOf(y) == Some(w)
    requires w in s.wsLock ==> s.wsLock[w] == t
    requires y.call.CreatePersonal? || w in s.db.orgs
    requires forall u :: u in s.txs && u != t && WorkspaceOf(s.txs[u]) == Some(w) ==> !PastWorkspace(s.db, s.txs[u])
    ensures Orderly(s.(wsLock := s.wsLock[w := t], txs := s.txs[t := y]))
  {
    var s' := s.(wsLock := s.wsLock[w := t], txs := s.txs[t := y]);
    SameCallsDiffer(s.txs, s'.txs);
    WorkspaceLockOwned(s, t, w, y);
    forall u | u in s'.txs ensures HoldsLocks(s', u) {
      if u != t { WorkspaceLockHeld(s, t, w, y, u); } else { assert HoldsLocks(s, t); }
    }
  }

  lemma WorkspaceLockOwned(s: State, t: TxId, w: Id, y: Tx)
    requires LocksOwned(s) && t in s.txs && Stage(s.txs[t].pc) == 2 && Stage(y.pc) > 2
    requires y.call == s.txs[t].call && WorkspaceOf(y) == Some(w)
    ensures LocksOwned(s.(wsLock := s.wsLock[w := t], txs := s.txs[t := y]))
  {
  }

  lemma WorkspaceLockHeld(s: State, t: TxId, w: Id, y: Tx, u: TxId)
    requires t in s.txs && u in s.txs && u != t && HoldsLocks(s, u)
    requires WorkspaceOf(s.txs[u]) == Some(w) ==> !PastWorkspace(s.db, s.txs[u])
    ensures HoldsLocks(s.(wsLock := s.wsLock[w := t], txs := s.txs[t := y]), u)
  {
  }

  /** Whoever is past its workspace statement is in the lock table. */
  lemma PastIsLocked(s: State, t: TxId, w: Id)
    requires Orderly(s) && t in s.txs && (w in s.wsLock ==> s.wsLock[w] == t)
    ensures forall u :: u in s.txs && u != t && WorkspaceOf(s.txs[u]) == Some(w) ==> !PastWorkspace(s.db, s.txs[u])
  {
  }

  lemma TakesWorkspace(s: State, t: TxId)
    requires Orderly(s) && Enabled(s, t) && s.txs[t].pc.LockWorkspace? && !s.txs[t].call.CreatePersonal?
    ensures Orderly(TakeWorkspace(s, t))
  {
    var x := s.txs[t];
    var w := WorkspaceOf(x);
    if w.None? || w.value !in s.db.orgs {
      Ends(s, t, s.db);
    } else {
      PastIsLocked(s, t, w.value);
      GrantsWorkspace(s, t, w.value, x.(pc := AfterLock(x.call)));
    }
  }

  lemma TakesNewWorkspace(s: State, t: TxId)
    requires Orderly(s) && Enabled(s, t) && s.txs[t].pc.InsertWorkspace? && s.txs[t].call.CreatePersonal?
    ensures Orderly(TakeNewWorkspace(s, t))
  {
    var x := s.txs[t];
    var w := x.call.user;
    if w in s.db.orgs {
      MovesUnlocked(s, t, x.(pc := Commit));
    } else {
      PastIsLocked(s, t, w);
      GrantsWorkspace(s, t, w, x.(pc := WriteMember, delta := x.delta.(orgs := x.delta.orgs + {w})));
    }
  }

  /** The workspace row was there already: the insert does nothing and locks nothing. */
  lemma MovesUnlocked(s: State, t: TxId, y: Tx)
    requires Orderly(s) && t in s.txs && s.txs[t].call.CreatePersonal? && s.txs[t].call.user in s.db.orgs
    requires y.call == s.txs[t].call && Stage(y.pc) >= Stage(s.txs[t].pc)
    ensures Orderly(s.(txs := s.txs[t := y]))
  {
    var s' := s.(txs := s.txs[t := y]);
    forall u | u in s'.txs ensures HoldsLocks(s', u) {
      assert HoldsLocks(s, u);
    }
  }

  /** t's own step leaves every other transaction's knowledge, and t's, true: the tables are the same. */
  lemma KnowledgeMoves(s: State, s': State, t: TxId, y: Tx)
    requires AllKnow(s) && t in s.txs && s'.db == s.db && s'.txs == s.txs[t := y]
    requires Knows(s.db, y)
    ensures AllKnow(s')
  {
  }

  lemma KnowledgeEnds(s: State, t: TxId)
    requires AllKnow(s)
    ensures AllKnow(Ended(s, t, s.db))
  {
  }

  /** While t commits, the others' locks keep their rows out of its footprint. */
  lemma OthersUndisturbed(s: State, t: TxId, u: TxId)
    requires Orderly(s) && t in s.txs && u in s.txs && t != u && s.txs[t].pc.Commit?
    requires InFootprint(s.db, s.txs[t])
    requires s.txs[u].call.CreateInvitation? ==> s.txs[u].call.id !in s.db.invs
    ensures Undisturbed(s.db, View(s.db, s.txs[t].delta), s.txs[u])
  {
  }

  lemma NewIdUnused(db: Db, x: Tx)
    requires Knows(db, x) && x.call.CreateInvitation?
    ensures x.call.id !in db.invs
  {
  }

  lemma KnowledgeCommits(s: State, t: TxId)
    requires Valid(s) && t in s.txs && s.txs[t].pc.Commit? && ValidDb(View(s.db, s.txs[t].delta))
    ensures AllKnow(Ended(s, t, View(s.db, s.txs[t].delta)))
  {
    var db' := View(s.db, s.txs[t].delta);
    forall u | u in s.txs && u != t ensures Knows(db', s.txs[u]) {
      KnowledgeCommitsOne(s, t, u);
    }
  }

  lemma KnowledgeCommitsOne(s: State, t: TxId, u: TxId)
    requires Valid(s) && t in s.txs && u in s.txs && t != u && s.txs[t].pc.Commit?
    requires ValidDb(View(s.db, s.txs[t].delta))
    ensures Knows(View(s.db, s.txs[t].delta), s.txs[u])
  {
    assert Knows(s.db, s.txs[t]) && Knows(s.db, s.txs[u]);
    CommitFootprint(s.db, s.txs[t]);
    if s.txs[u].call.CreateInvitation? { NewIdUnused(s.db, s.txs[u]); }
    OthersUndisturbed(s, t, u);
    StillKnows(s.db, View(s.db, s.txs[t].delta), s.txs[u]);
  }

  /** What a step does to the committed tables: nothing, one serial transaction, or one new account. */
  ghost predicate StepIsSerial(s: State, l: Label)
    requires Allowed(s, l)
  {
    var s' := Apply(s, l);
    match l
    case Starts(_, _) => s'.db == s.db
    case SignsUp(a, u) => s'.db == s.db.(users := s.db.users[a := u])
    case Runs(t) =>
      if s.txs[t].pc.Commit?
      then FreshId(s.db, s.txs[t].call) && Serial(s.db, s.txs[t].call) == Done(s'.db, s.txs[t].role)
      else s'.db == s.db
  }

  lemma KnowsAtLock(db: Db, x: Tx)
    requires Knows(db, x)
    ensures x.pc.LockAccount? ==> AccountOf(x.call).Some? && Knows(db, x.(pc := LockWorkspace))
    ensures x.pc.LockWorkspace? ==> !x.call.CreatePersonal? && Knows(db, x.(pc := AfterLock(x.call)))
    ensures x.pc.InsertWorkspace? ==>
              && x.call.CreatePersonal?
              && (x.call.user in db.orgs ==> Knows(db, x.(pc := Commit)))
              && (x.call.user !in db.orgs ==>
                    Knows(db, x.(pc := WriteMember, delta := x.delta.(orgs := x.delta.orgs + {x.call.user}))))
  {
  }

  lemma FiresAccount(s: State, t: TxId)
    requires Valid(s) && Enabled(s, t) && s.txs[t].pc.LockAccount?
    ensures Valid(TakeAccount(s, t)) && TakeAccount(s, t).db == s.db
  {
    TakesAccount(s, t);
    KnowsAtLock(s.db, s.txs[t]);
    KnowledgeMoves(s, TakeAccount(s, t), t, s.txs[t].(pc := LockWorkspace));
  }

  lemma FiresWorkspace(s: State, t: TxId)
    requires Valid(s) && Enabled(s, t) && s.txs[t].pc.LockWorkspace?
    ensures Valid(TakeWorkspace(s, t)) && TakeWorkspace(s, t).db == s.db
  {
    var x := s.txs[t];
    KnowsAtLock(s.db, x);
    TakesWorkspace(s, t);
    if WorkspaceOf(x).None? || WorkspaceOf(x).value !in s.db.orgs {
      KnowledgeEnds(s, t);
    } else {
      KnowledgeMoves(s, TakeWorkspace(s, t), t, x.(pc := AfterLock(x.call)));
    }
  }

  lemma FiresNewWorkspace(s: State, t: TxId)
    requires Valid(s) && Enabled(s, t) && s.txs[t].pc.InsertWorkspace?
    ensures Valid(TakeNewWorkspace(s, t)) && TakeNewWorkspace(s, t).db == s.db
  {
    var x := s.txs[t];
    TakesNewWorkspace(s, t);
    if x.call.user in s.db.orgs {
      WorkspaceExists(s, t);
    } else {
      WorkspaceIsNew(s, t);
    }
  }

  lemma WorkspaceExists(s: State, t: TxId)
    requires Valid(s) && Enabled(s, t) && s.txs[t].pc.InsertWorkspace? && s.txs[t].call.user in s.db.orgs
    requires Orderly(TakeNewWorkspace(s, t))
    ensures Valid(TakeNewWorkspace(s, t)) && TakeNewWorkspace(s, t).db == s.db
  {
    var x := s.txs[t];
    KnowsAtLock(s.db, x);
    KnowledgeMoves(s, TakeNewWorkspace(s, t), t, x.(pc := Commit));
  }

  lemma WorkspaceIsNew(s: State, t: TxId)
    requires Valid(s) && Enabled(s, t) && s.txs[t].pc.InsertWorkspace? && s.txs[t].call.user !in s.db.orgs
    requires Orderly(TakeNewWorkspace(s, t))
    ensures Valid(TakeNewWorkspace(s, t)) && TakeNewWorkspace(s, t).db == s.db
  {
    var x := s.txs[t];
    KnowsAtLock(s.db, x);
    KnowledgeMoves(s, TakeNewWorkspace(s, t), t,
                   x.(pc := WriteMember, delta := x.delta.(orgs := x.delta.orgs + {x.call.user})));
  }

  lemma FiresStatement(s: State, t: TxId)
    requires Valid(s) && t in s.txs && Plain(s.txs[t].pc)
    ensures
      match Statement(s.db, s.txs[t])
      case Go(y) => Valid(s.(txs := s.txs[t := y]))
      case Abort(_) => Valid(Ended(s, t, s.db))
  {
    OwnStatement(s.db, s.txs[t]);
    match Statement(s.db, s.txs[t]) {
      case Go(y) =>
        Moves(s, t, y);
        KnowledgeMoves(s, s.(txs := s.txs[t := y]), t, y);
      case Abort(_) =>
        Ends(s, t, s.db);
        KnowledgeEnds(s, t);
    }
  }

  lemma FiresCommit(s: State, t: TxId)
    requires Valid(s) && t in s.txs && s.txs[t].pc.Commit?
    ensures Valid(Ended(s, t, View(s.db, s.txs[t].delta)))
    ensures IsSerial(s.db, s.txs[t])
  {
    var x := s.txs[t];
    var db' := View(s.db, x.delta);
    CommitIsSerial(s.db, x);
    SerialKeeps(s.db, x.call);
    CommitFootprint(s.db, x);
    Ends(s, t, db');
    KnowledgeCommits(s, t);
  }

  lemma BeginsKnowing(db: Db, c: Call)
    requires Opens(c) && FreshId(db, c)
    ensures Knows(db, Begin(c))
  {
  }

  lemma StartsOrderly(s: State, t: TxId, c: Call)
    requires Orderly(s) && t !in s.txs && FreshCall(s, c)
    ensures Orderly(s.(txs := s.txs[t := Begin(c)]))
  {
    var s' := s.(txs := s.txs[t := Begin(c)]);
    StartsApart(s, t, c);
    forall u | u in s'.txs ensures HoldsLocks(s', u) {
      if u != t { assert HoldsLocks(s, u); }
    }
  }

  lemma StartsApart(s: State, t: TxId, c: Call)
    requires LocksOwned(s) && NewIdsDiffer(s.txs) && t !in s.txs && FreshCall(s, c)
    ensures LocksOwned(s.(txs := s.txs[t := Begin(c)])) && NewIdsDiffer(s.txs[t := Begin(c)])
  {
  }

  lemma StartsValid(s: State, t: TxId, c: Call)
    requires Valid(s) && Allowed(s, Starts(t, c))
    ensures Valid(s.(txs := s.txs[t := Begin(c)]))
  {
    BeginsKnowing(s.db, c);
    StartsOrderly(s, t, c);
    var s' := s.(txs := s.txs[t := Begin(c)]);
    forall u | u in s'.txs ensures Knows(s'.db, s'.txs[u]) {
      if u != t { assert Knows(s.db, s.txs[u]); }
    }
  }

  lemma SignsUpValid(s: State, a: Id, user: User)
    requires Valid(s) && Allowed(s, SignsUp(a, user))
    ensures Valid(Apply(s, SignsUp(a, user)))
  {
    var s' := Apply(s, SignsUp(a, user));
    forall u | u in s'.txs ensures Knows(s'.db, s'.txs[u]) {
      var x := s.txs[u];
      if x.call.CreateInvitation? { NewIdUnused(s.db, x); }
      assert HoldsLocks(s, u);
      assert Undisturbed(s.db, s'.db, x);
      StillKnows(s.db, s'.db, x);
    }
    forall u | u in s'.txs ensures HoldsLocks(s', u) {
      assert HoldsLocks(s, u);
    }
  }

  /**
    The refinement, for one step of any interleaving: the invariant is kept, and the committed tables change
    only at a commit, by exactly what the committing transaction would do alone at that moment (or by a sign-up).
  */
  lemma StepRefines(s: State, l: Label)
    requires Valid(s) && Allowed(s, l)
    ensures Valid(Apply(s, l)) && StepIsSerial(s, l)
  {
    match l
    case Starts(t, c) => StartsValid(s, t, c);
    case SignsUp(a, u) => SignsUpValid(s, a, u);
    case Runs(t) =>
      if s.txs[t].pc.LockAccount? { FiresAccount(s, t); }
      else if s.txs[t].pc.LockWorkspace? { FiresWorkspace(s, t); }
      else if s.txs[t].pc.InsertWorkspace? { FiresNewWorkspace(s, t); }
      else if s.txs[t].pc.Commit? { FiresCommit(s, t); }
      else { FiresStatement(s, t); }
  }

  // ----- whole runs -----

  /** Valid tables with no transaction under way: where every run begins. */
  lemma QuietIsValid(db: Db)
    requires ValidDb(db)
    ensures Valid(State(db, map[], map[], map[]))
  {
  }

  /** A run: each step is allowed where it is taken. */
  predicate IsRun(s: State, ls: seq<Label>)
    decreases |ls|
  {
    ls == [] || (Allowed(s, ls[0]) && IsRun(Apply(s, ls[0]), ls[1..]))
  }

  function After(s: State, ls: seq<Label>): State
    requires IsRun(s, ls)
    decreases |ls|
  {
    if ls == [] then s else After(Apply(s, ls[0]), ls[1..])
  }

  /** One entry of a serial history. */
  datatype Entry = Ran(call: Call) | Joined(acct: Id, user: User)

  /** The run's serial history: its committed transactions, in commit order, and its sign-ups. */
  function History(s: State, ls: seq<Label>): seq<Entry>
    requires IsRun(s, ls)
    decreases |ls|
  {
    if ls == [] then [] else
    var rest := History(Apply(s, ls[0]), ls[1..]);
    match ls[0]
    case Starts(_, _) => rest
    case SignsUp(a, u) => [Joined(a, u)] + rest
    case Runs(t) => if s.txs[t].pc.Commit? then [Ran(s.txs[t].call)] + rest else rest
  }

  /** Every transaction of a history succeeds, alone, where it stands. */
  predicate Succeeds(db: Db, h: seq<Entry>)
    decreases |h|
  {
    h == [] ||
    match h[0]
    case Ran(c) => FreshId(db, c) && Serial(db, c).Done? && Succeeds(Serial(db, c).db, h[1..])
    case Joined(a, u) => a !in db.users && Succeeds(db.(users := db.users[a := u]), h[1..])
  }

  function Replay(db: Db, h: seq<Entry>): Db
    requires Succeeds(db, h)
    decreases |h|
  {
    if h == [] then db else
    match h[0]
    case Ran(c) => Replay(Serial(db, c).db, h[1..])
    case Joined(a, u) => Replay(db.(users := db.users[a := u]), h[1..])
  }

  /**
    Every interleaving is serial: the committed tables at the end of any run are what its committed
    transactions give one after another, each alone, in the order they committed.
  */
  lemma {:induction false} EveryRunIsSerial(s: State, ls: seq<Label>)
    requires Valid(s) && IsRun(s, ls)
    ensures Valid(After(s, ls))
    ensures Succeeds(s.db, History(s, ls)) && Replay(s.db, History(s, ls)) == After(s, ls).db
    decreases |ls|
  {
    if ls != [] {
      StepRefines(s, ls[0]);
      EveryRunIsSerial(Apply(s, ls[0]), ls[1..]);
      var h, rest := History(s, ls), History(Apply(s, ls[0]), ls[1..]);
      if h != rest { assert h[1..] == rest; }
    }
  }

  lemma KeepsJoined(db: Db, a: Id, u: User)
    requires ValidDb(db) && a !in db.users
    ensures ValidDb(db.(users := db.users[a := u])) && Keeps(db, db.(users := db.users[a := u]))
  {
  }

  lemma {:induction false} HistoriesKeep(db: Db, h: seq<Entry>)
    requires ValidDb(db) && Succeeds(db, h)
    ensures Keeps(db, Replay(db, h))
    decreases |h|
  {
    if h == [] {
    } else {
      match h[0]
      case Ran(c) =>
        SerialKeeps(db, c);
        HistoriesKeep(Serial(db, c).db, h[1..]);
      case Joined(a, u) =>
        KeepsJoined(db, a, u);
        HistoriesKeep(db.(users := db.users[a := u]), h[1..]);
    }
  }

  /**
    Over every run of interleaved statements: a workspace that has an owner keeps one, an account with a
    workspace keeps one, and an invitation once accepted or revoked never changes again.
  */
  lemma EveryRunKeeps(s: State, ls: seq<Label>)
    requires Valid(s) && IsRun(s, ls)
    ensures Keeps(s.db, After(s, ls).db)
  {
    EveryRunIsSerial(s, ls);
    HistoriesKeep(s.db, History(s, ls));
  }

  // ----- waiting -----

  /** A chain of transactions, each waiting for a lock the next one holds. */
  predicate WaitChain(s: State, p: seq<TxId>) {
    && (forall i :: 0 <= i < |p| ==> p[i] in s.txs)
    && (forall i :: 0 <= i < |p| - 1 ==> Holder(s, p[i]) == Some(p[i + 1]))
  }

  /** Whoever holds a workspace lock waits for nothing; whoever holds an account lock waits at most for a workspace. */
  lemma HoldersWaitLess(s: State, t: TxId)
    requires Orderly(s) && t in s.txs && Holder(s, t).Some?
    ensures Holder(s, t).value in s.txs
    ensures
      var u := Holder(s, t).value;
      && !s.txs[u].pc.LockAccount?
      && (!s.txs[t].pc.LockAccount? ==> Stage(s.txs[u].pc) > 2)
  {
  }

  /**
    Accounts are locked before workspaces, so no run reaches a cycle of waiters: from any reachable state a
    chain of waiters has at most two links, and its end waits for nobody.
  */
  lemma WaitChainsAreShort(s: State, p: seq<TxId>)
    requires Orderly(s) && WaitChain(s, p)
    ensures |p| <= 3
  {
    if |p| > 3 {
      assert Holder(s, p[0]) == Some(p[1]) && Holder(s, p[1]) == Some(p[2]) && Holder(s, p[2]) == Some(p[3]);
      HoldersWaitLess(s, p[0]);
      HoldersWaitLess(s, p[1]);
    }
  }

  /** No reachable state is stuck: while a transaction is under way, some transaction can take its next statement. */
  lemma SomeoneCanRun(s: State, t: TxId)
    requires Orderly(s) && t in s.txs
    ensures exists u :: Enabled(s, u)
  {
    if Holder(s, t).None? {
      assert Enabled(s, t);
    } else {
      var u := Holder(s, t).value;
      HoldersWaitLess(s, t);
      if Holder(s, u).None? {
        assert Enabled(s, u);
      } else {
        var v := Holder(s, u).value;
        HoldersWaitLess(s, u);
        assert Holder(s, v).None?;
        assert Enabled(s, v);
      }
    }
  }
}
