/**
  Workspace membership, one transaction at a time: the tables, and what each transaction of
  web/lib/workspace-members.ts does when it runs alone. MembershipTx shows that every statement-level
  interleaving comes down to these.

  A personal workspace's id is its founder's account id, so one type of id serves both. An invitation's
  id and the hash of its token are both unique to the row, so one id stands for the pair.
*/
module MembershipSpec {
  import opened Common
  import opened Roles

  type Id = nat
  type Email = string

  /** The primary key of a membership row. */
  datatype Key = Key(ws: Id, acct: Id)

  datatype Mem = Mem(role: Role, createdAt: int)

  datatype User = User(email: Email, verified: bool)

  datatype Inv = Inv(tenant: Id, email: Email, role: Role, invitedBy: Id, createdAt: int, expiresAt: int,
                     acceptedAt: Option<int>, acceptedBy: Option<Id>, revokedAt: Option<int>)

  datatype Db = Db(orgs: set<Id>, users: map<Id, User>, mems: map<Key, Mem>, invs: map<Id, Inv>)

  /** Who acts, in which workspace, with the role the request was authenticated as. */
  datatype Acting = Acting(actor: Id, tenant: Id, role: Role)

  datatype Call =
    | ChangeRole(who: Acting, member: Id, role: Role)
    | RemoveMember(who: Acting, member: Id, now: int)
    | Leave(who: Acting, now: int)
    | CreateInvitation(who: Acting, email: Email, role: Role, id: Id, now: int)
    | RevokeInvitation(who: Acting, id: Id, now: int)
    | AcceptInvitation(actor: Id, token: Id, now: int)
    | CreatePersonal(user: Id, now: int)

  datatype Error =
    | Forbidden | NotFound | LastOwner | OnlyWorkspace | AlreadyMember | TooManyInvites
    | InvalidInvite | WrongAccount | EmailUnverified

  /** What a transaction leaves: the new tables and the role it reports, or an error and no change. */
  datatype Outcome = Done(db: Db, role: Option<Role>) | Refused(error: Error)

  const INVITE_TTL_S := 7 * 24 * 60 * 60
  const MAX_PENDING_INVITES := 50

  function RoleOf(db: Db, w: Id, a: Id): Option<Role> {
    if Key(w, a) in db.mems then Some(db.mems[Key(w, a)].role) else None
  }

  function OwnerKeys(db: Db, w: Id): set<Key> {
    set k | k in db.mems && k.ws == w && db.mems[k].role == Owner
  }

  function KeysOf(db: Db, a: Id): set<Key> {
    set k | k in db.mems && k.acct == a
  }

  /** Neither accepted nor revoked; it may have expired. */
  predicate Unused(i: Inv) {
    i.acceptedAt.None? && i.revokedAt.None?
  }

  predicate Pending(i: Inv, now: int) {
    Unused(i) && i.expiresAt > now
  }

  function PendingIds(invs: map<Id, Inv>, w: Id, now: int): set<Id> {
    set i | i in invs && invs[i].tenant == w && Pending(invs[i], now)
  }

  /** The workspace's unused invitations sent by `from`, revoked now: the rows offboarding rewrites. */
  function SentRevoked(db: Db, w: Id, from: Id, now: int): map<Id, Inv> {
    map i | i in db.invs && db.invs[i].tenant == w && db.invs[i].invitedBy == from && Unused(db.invs[i])
      :: db.invs[i].(revokedAt := Some(now))
  }

  /** The workspace's unused invitations to `email`, revoked now: the rows a new invitation replaces. */
  function ReplacedRevoked(db: Db, w: Id, email: Email, now: int): map<Id, Inv> {
    map i | i in db.invs && db.invs[i].tenant == w && db.invs[i].email == email && Unused(db.invs[i])
      :: db.invs[i].(revokedAt := Some(now))
  }

  predicate IsMemberByEmail(db: Db, w: Id, email: Email) {
    exists k :: k in db.mems && k.ws == w && k.acct in db.users && db.users[k.acct].email == email
  }

  /** Replacing a pending invitation takes what revoking it would. */
  predicate MayReplace(db: Db, me: Role, w: Id, email: Email, now: int) {
    forall i :: i in db.invs && db.invs[i].tenant == w && db.invs[i].email == email && Pending(db.invs[i], now)
      ==> MayManage(me, None, Some(db.invs[i].role))
  }

  function NewInvitation(who: Acting, email: Email, role: Role, now: int): Inv {
    Inv(who.tenant, email, role, who.actor, now, now + INVITE_TTL_S, None, None, None)
  }

  // ----- each transaction, alone -----

  function SerialChangeRole(db: Db, who: Acting, member: Id, role: Role): Outcome {
    var w := who.tenant;
    if w !in db.orgs then Refused(NotFound) else
    var me := RoleOf(db, w, who.actor);
    if me.None? then Refused(Forbidden) else
    var current := RoleOf(db, w, member);
    if current.None? then Refused(NotFound) else
    if !MayManage(me.value, current, Some(role)) then Refused(Forbidden) else
    if current.value == Owner && role != Owner && |OwnerKeys(db, w)| <= 1 then Refused(LastOwner) else
    var k := Key(w, member);
    Done(if current.value != role then db.(mems := db.mems[k := db.mems[k].(role := role)]) else db, current)
  }

  function SerialRemoveMember(db: Db, who: Acting, member: Id, now: int): Outcome {
    var w := who.tenant;
    if member == who.actor then Refused(Forbidden) else
    if w !in db.orgs then Refused(NotFound) else
    var me := RoleOf(db, w, who.actor);
    if me.None? then Refused(Forbidden) else
    var current := RoleOf(db, w, member);
    if current.None? then Refused(NotFound) else
    if !MayManage(me.value, current, None) then Refused(Forbidden) else
    if current.value == Owner && |OwnerKeys(db, w)| <= 1 then Refused(LastOwner) else
    if |KeysOf(db, member)| <= 1 then Refused(OnlyWorkspace) else
    Done(db.(mems := db.mems - {Key(w, member)}, invs := db.invs + SentRevoked(db, w, member, now)), current)
  }

  function SerialLeave(db: Db, who: Acting, now: int): Outcome {
    var w := who.tenant;
    if w !in db.orgs then Refused(NotFound) else
    var current := RoleOf(db, w, who.actor);
    if current.None? then Refused(NotFound) else
    if current.value == Owner && |OwnerKeys(db, w)| <= 1 then Refused(LastOwner) else
    if |KeysOf(db, who.actor)| <= 1 then Refused(OnlyWorkspace) else
    Done(db.(mems := db.mems - {Key(w, who.actor)}, invs := db.invs + SentRevoked(db, w, who.actor, now)), current)
  }

  function SerialCreateInvitation(db: Db, who: Acting, email: Email, role: Role, id: Id, now: int): Outcome {
    var w := who.tenant;
    if !MayManage(who.role, None, Some(role)) then Refused(Forbidden) else
    if w !in db.orgs then Refused(NotFound) else
    var me := RoleOf(db, w, who.actor);
    if me.None? || !MayManage(me.value, None, Some(role)) then Refused(Forbidden) else
    if IsMemberByEmail(db, w, email) then Refused(AlreadyMember) else
    if !MayReplace(db, me.value, w, email, now) then Refused(Forbidden) else
    var invs := db.invs + ReplacedRevoked(db, w, email, now);
    if |PendingIds(invs, w, now)| >= MAX_PENDING_INVITES then Refused(TooManyInvites) else
    Done(db.(invs := invs[id := NewInvitation(who, email, role, now)]), None)
  }

  function SerialRevokeInvitation(db: Db, who: Acting, id: Id, now: int): Outcome {
    var w := who.tenant;
    if w !in db.orgs then Refused(NotFound) else
    var me := RoleOf(db, w, who.actor);
    if me.None? then Refused(Forbidden) else
    if !(id in db.invs && db.invs[id].tenant == w && Unused(db.invs[id])) then Refused(NotFound) else
    if !MayManage(me.value, None, Some(db.invs[id].role)) then Refused(Forbidden) else
    Done(db.(invs := db.invs[id := db.invs[id].(revokedAt := Some(now))]), Some(db.invs[id].role))
  }

  function SerialAcceptInvitation(db: Db, actor: Id, token: Id, now: int): Outcome {
    if !(token in db.invs && Pending(db.invs[token], now)) then Refused(InvalidInvite) else
    var inv := db.invs[token];
    var w := inv.tenant;
    if w !in db.orgs then Refused(NotFound) else
    var inviter := RoleOf(db, w, inv.invitedBy);
    if inviter.None? || !MayManage(inviter.value, None, Some(inv.role)) then Refused(InvalidInvite) else
    if !(actor in db.users && db.users[actor].email == inv.email) then Refused(WrongAccount) else
    if !db.users[actor].verified then Refused(EmailUnverified) else
    var k := Key(w, actor);
    var mems := if k in db.mems then db.mems else db.mems[k := Mem(inv.role, now)];
    Done(db.(mems := mems, invs := db.invs[token := inv.(acceptedAt := Some(now), acceptedBy := Some(actor))]),
         Some(mems[k].role))
  }

  function SerialCreatePersonal(db: Db, user: Id, now: int): Outcome {
    if user in db.orgs then Done(db, None) else
    var k := Key(user, user);
    Done(db.(orgs := db.orgs + {user}, mems := if k in db.mems then db.mems else db.mems[k := Mem(Owner, now)]), None)
  }

  function Serial(db: Db, c: Call): Outcome {
    match c
    case ChangeRole(who, member, role) => SerialChangeRole(db, who, member, role)
    case RemoveMember(who, member, now) => SerialRemoveMember(db, who, member, now)
    case Leave(who, now) => SerialLeave(db, who, now)
    case CreateInvitation(who, email, role, id, now) => SerialCreateInvitation(db, who, email, role, id, now)
    case RevokeInvitation(who, id, now) => SerialRevokeInvitation(db, who, id, now)
    case AcceptInvitation(actor, token, now) => SerialAcceptInvitation(db, actor, token, now)
    case CreatePersonal(user, now) => SerialCreatePersonal(db, user, now)
  }

  // ----- what the tables keep -----

  /** Members are accounts, in workspaces that exist; so are the invitations' workspaces. */
  ghost predicate ValidDb(db: Db) {
    && (forall k :: k in db.mems ==> k.ws in db.orgs && k.acct in db.users)
    && (forall i :: i in db.invs ==> db.invs[i].tenant in db.orgs)
  }

  predicate HasOwner(db: Db, w: Id) {
    OwnerKeys(db, w) != {}
  }

  predicate HasWorkspace(db: Db, a: Id) {
    KeysOf(db, a) != {}
  }

  /** The parts of an invitation row nothing rewrites. */
  predicate SameOffer(i: Inv, j: Inv) {
    j == i.(acceptedAt := j.acceptedAt, acceptedBy := j.acceptedBy, revokedAt := j.revokedAt)
  }

  /** Workspaces and accounts keep someone; an invitation, once accepted or revoked, stays exactly as it is. */
  ghost predicate Keeps(db: Db, db': Db) {
    && (forall w :: HasOwner(db, w) ==> HasOwner(db', w))
    && (forall a :: HasWorkspace(db, a) ==> HasWorkspace(db', a))
    && db.orgs <= db'.orgs
    && (forall u :: u in db.users ==> u in db'.users && db'.users[u] == db.users[u])
    && (forall i :: i in db.invs ==> i in db'.invs && SameOffer(db.invs[i], db'.invs[i]))
    && (forall i :: i in db.invs && db.invs[i].acceptedAt.Some? ==> db'.invs[i] == db.invs[i])
    && (forall i :: i in db.invs && db.invs[i].revokedAt.Some? ==> db'.invs[i] == db.invs[i])
  }

  /** A set of more than one element keeps one when one goes. */
  lemma OthersRemain<T>(s: set<T>, x: T)
    requires |s| > 1
    ensures s - {x} != {}
  {
    if s - {x} == {} {
      assert s <= {x};
      assert |{x}| == 1;
      SubsetSize(s, {x});
    }
  }

  lemma {:induction false} SubsetSize<T>(a: set<T>, b: set<T>)
    requires a <= b
    ensures |a| <= |b|
    decreases a
  {
    if a != {} {
      var x :| x in a;
      SubsetSize(a - {x}, b - {x});
    }
  }

  /** What a new id must be, so that a random one never lands on a row that exists. */
  predicate FreshId(db: Db, c: Call) {
    && (c.CreateInvitation? ==> c.id !in db.invs)
    && (c.CreatePersonal? ==> c.user in db.users)
  }

  lemma DropMember(db: Db, db': Db, k: Key, w: Id)
    requires k in db.mems && k.ws == w
    requires db'.mems == db.mems - {k}
    requires |KeysOf(db, k.acct)| > 1
    requires db.mems[k].role == Owner ==> |OwnerKeys(db, w)| > 1
    ensures forall v :: HasOwner(db, v) ==> HasOwner(db', v)
    ensures forall a :: HasWorkspace(db, a) ==> HasWorkspace(db', a)
  {
    forall v | HasOwner(db, v) ensures HasOwner(db', v) {
      assert OwnerKeys(db', v) == OwnerKeys(db, v) - {k};
      if k in OwnerKeys(db, v) { OthersRemain(OwnerKeys(db, v), k); }
    }
    forall a | HasWorkspace(db, a) ensures HasWorkspace(db', a) {
      assert KeysOf(db', a) == KeysOf(db, a) - {k};
      if k in KeysOf(db, a) { OthersRemain(KeysOf(db, a), k); }
    }
  }

  lemma PutMember(db: Db, db': Db, k: Key, m: Mem)
    requires db'.mems == db.mems[k := m]
    requires k in db.mems && db.mems[k].role == Owner && m.role != Owner ==> |OwnerKeys(db, k.ws)| > 1
    ensures forall v :: HasOwner(db, v) ==> HasOwner(db', v)
    ensures forall a :: HasWorkspace(db, a) ==> HasWorkspace(db', a)
  {
    forall v | HasOwner(db, v) ensures HasOwner(db', v) {
      if k in OwnerKeys(db, v) && m.role != Owner {
        OthersRemain(OwnerKeys(db, v), k);
        var o :| o in OwnerKeys(db, v) - {k};
        assert o in OwnerKeys(db', v);
      } else {
        var o :| o in OwnerKeys(db, v);
        assert o in OwnerKeys(db', v);
      }
    }
    forall a | HasWorkspace(db, a) ensures HasWorkspace(db', a) {
      var o :| o in KeysOf(db, a);
      assert o in KeysOf(db', a);
    }
  }

  lemma SameMembers(db: Db, db': Db)
    requires db'.mems == db.mems
    ensures forall v :: HasOwner(db, v) ==> HasOwner(db', v)
    ensures forall a :: HasWorkspace(db, a) ==> HasWorkspace(db', a)
  {
  }

  /** One transaction alone keeps the tables valid and every owner and account provided for. */
  lemma SerialKeeps(db: Db, c: Call)
    requires ValidDb(db) && FreshId(db, c)
    requires Serial(db, c).Done?
    ensures ValidDb(Serial(db, c).db) && Keeps(db, Serial(db, c).db)
  {
    var db' := Serial(db, c).db;
    match c
    case ChangeRole(who, member, role) =>
      if RoleOf(db, who.tenant, member) != Some(role) {
        var k := Key(who.tenant, member);
        PutMember(db, db', k, db.mems[k].(role := role));
      }
    case RemoveMember(who, member, now) => DropMember(db, db', Key(who.tenant, member), who.tenant);
    case Leave(who, now) => DropMember(db, db', Key(who.tenant, who.actor), who.tenant);
    case CreateInvitation(_, _, _, _, _) => SameMembers(db, db');
    case RevokeInvitation(_, _, _) => SameMembers(db, db');
    case AcceptInvitation(actor, token, now) =>
      var inv := db.invs[token];
      var k := Key(inv.tenant, actor);
      if k in db.mems { SameMembers(db, db'); } else { PutMember(db, db', k, Mem(inv.role, now)); }
    case CreatePersonal(user, now) =>
      if user !in db.orgs { PutMember(db, db', Key(user, user), Mem(Owner, now)); }
  }

  /** The account whose authority a transaction uses: the actor, or for an acceptance the inviter. */
  function Authority(db: Db, c: Call): Option<Key> {
    match c
    case ChangeRole(who, _, _) => Some(Key(who.tenant, who.actor))
    case RemoveMember(who, _, _) => Some(Key(who.tenant, who.actor))
    case Leave(who, _) => Some(Key(who.tenant, who.actor))
    case CreateInvitation(who, _, _, _, _) => Some(Key(who.tenant, who.actor))
    case RevokeInvitation(who, _, _) => Some(Key(who.tenant, who.actor))
    case AcceptInvitation(_, token, _) =>
      if token in db.invs then Some(Key(db.invs[token].tenant, db.invs[token].invitedBy)) else None
    case CreatePersonal(_, _) => None
  }

  /**
    Ownership of a workspace changes hands only on an owner's authority: whoever gains or loses the owner
    role does so by a transaction whose actor (or, for an invitation, whose inviter) owns that workspace at
    that moment. The one exception is the founder of a workspace that did not exist.
  */
  lemma OwnershipNeedsAnOwner(db: Db, c: Call, k: Key)
    requires ValidDb(db) && Serial(db, c).Done?
    requires (k in OwnerKeys(db, k.ws)) != (k in OwnerKeys(Serial(db, c).db, k.ws))
    ensures c.CreatePersonal? ==> k == Key(c.user, c.user) && c.user !in db.orgs
    ensures !c.CreatePersonal? ==> Authority(db, c).Some? && Authority(db, c).value in OwnerKeys(db, k.ws)
  {
  }

  /** An invitation made at `now` leaves at most the limit pending in its workspace at that moment. */
  lemma PendingStayBounded(db: Db, who: Acting, email: Email, role: Role, id: Id, now: int)
    requires id !in db.invs
    requires Serial(db, CreateInvitation(who, email, role, id, now)).Done?
    ensures
      var db' := Serial(db, CreateInvitation(who, email, role, id, now)).db;
      && |PendingIds(db'.invs, who.tenant, now)| <= MAX_PENDING_INVITES
      && forall i :: i in PendingIds(db'.invs, who.tenant, now) && db'.invs[i].email == email ==> i == id
  {
    var db' := Serial(db, CreateInvitation(who, email, role, id, now)).db;
    var invs := db.invs + ReplacedRevoked(db, who.tenant, email, now);
    OneMorePending(invs, db'.invs, who.tenant, id, now);
  }

  lemma OneMorePending(invs: map<Id, Inv>, invs': map<Id, Inv>, w: Id, id: Id, now: int)
    requires id in invs' && invs'.Keys == invs.Keys + {id} && forall i :: i in invs && i != id ==> invs'[i] == invs[i]
    ensures |PendingIds(invs', w, now)| <= |PendingIds(invs, w, now)| + 1
  {
    var before, after := PendingIds(invs, w, now), PendingIds(invs', w, now);
    assert after <= before + {id};
    SubsetSize(after, before + {id});
  }
}
