/**
  Who may do what to a workspace's members, and what that changes (web/lib/workspace-members.ts:89-220), said of the
  membership rows themselves: for each transaction, exactly when it goes through, and every row afterwards.
*/
module MembershipLaws {
  import opened Common
  import opened Roles
  import opened MembershipSpec

  /** The account is an admin or an owner of the workspace. */
  predicate Manages(db: Db, w: Id, a: Id) {
    Key(w, a) in db.mems && (db.mems[Key(w, a)].role == Admin || db.mems[Key(w, a)].role == Owner)
  }

  predicate Owns(db: Db, w: Id, a: Id) {
    Key(w, a) in db.mems && db.mems[Key(w, a)].role == Owner
  }

  predicate IsMember(db: Db, w: Id, a: Id) {
    Key(w, a) in db.mems
  }

  /** Someone else owns the workspace too. */
  ghost predicate AnotherOwns(db: Db, w: Id, a: Id) {
    exists b :: b != a && Owns(db, w, b)
  }

  /** The account belongs to another workspace too. */
  ghost predicate BelongsElsewhere(db: Db, w: Id, a: Id) {
    exists v :: v != w && IsMember(db, v, a)
  }

  /** The invitation was neither accepted nor revoked. */
  predicate Open(i: Inv) {
    i.acceptedAt == None && i.revokedAt == None
  }

  /** The invitations that still count for a workspace, but for those to one address. */
  function OpenToOthers(db: Db, w: Id, email: Email, now: int): set<Id> {
    set i | i in db.invs && db.invs[i].tenant == w && Open(db.invs[i]) && now < db.invs[i].expiresAt && db.invs[i].email != email
  }

  // ----- who may -----

  /**
    Whoever changes a role, removes a member, invites or takes an invitation back is an admin or an owner of that
    workspace at that moment, and whoever an invitation admits was invited by one who still is. Where an owner is
    made, changed, removed or invited it takes an owner.
  */
  lemma OnlyManagersManage(db: Db, c: Call)
    requires Serial(db, c).Done?
    ensures
      match c
      case ChangeRole(who, member, role) =>
        && Manages(db, who.tenant, who.actor)
        && (role == Owner || Owns(db, who.tenant, member) ==> Owns(db, who.tenant, who.actor))
      case RemoveMember(who, member, _) =>
        && Manages(db, who.tenant, who.actor) && member != who.actor
        && (Owns(db, who.tenant, member) ==> Owns(db, who.tenant, who.actor))
      case CreateInvitation(who, _, role, _, _) =>
        && Manages(db, who.tenant, who.actor) && who.role in {Admin, Owner}
        && (role == Owner ==> Owns(db, who.tenant, who.actor) && who.role == Owner)
      case RevokeInvitation(who, id, _) =>
        && Manages(db, who.tenant, who.actor)
        && id in db.invs && (db.invs[id].role == Owner ==> Owns(db, who.tenant, who.actor))
      case AcceptInvitation(_, token, _) =>
        && token in db.invs && Manages(db, db.invs[token].tenant, db.invs[token].invitedBy)
        && (db.invs[token].role == Owner ==> Owns(db, db.invs[token].tenant, db.invs[token].invitedBy))
      case Leave(who, _) => IsMember(db, who.tenant, who.actor)
      case CreatePersonal(_, _) => true
  {
  }

  lemma OneOwnerIsLast(db: Db, w: Id, a: Id)
    requires Owns(db, w, a)
    ensures |OwnerKeys(db, w)| <= 1 <==> !AnotherOwns(db, w, a)
  {
    var k := Key(w, a);
    assert k in OwnerKeys(db, w);
    if |OwnerKeys(db, w)| <= 1 {
      SubsetSize({k}, OwnerKeys(db, w));
      forall b | b != a ensures !Owns(db, w, b) {
        if Owns(db, w, b) { SubsetSize({k, Key(w, b)}, OwnerKeys(db, w)); }
      }
    } else {
      OthersRemain(OwnerKeys(db, w), k);
      var o :| o in OwnerKeys(db, w) - {k};
      assert o == Key(w, o.acct) && Owns(db, w, o.acct);
    }
  }

  lemma OneWorkspaceIsLast(db: Db, w: Id, a: Id)
    requires IsMember(db, w, a)
    ensures |KeysOf(db, a)| <= 1 <==> !BelongsElsewhere(db, w, a)
  {
    var k := Key(w, a);
    assert k in KeysOf(db, a);
    if |KeysOf(db, a)| <= 1 {
      forall v | v != w ensures !IsMember(db, v, a) {
        if IsMember(db, v, a) { SubsetSize({k, Key(v, a)}, KeysOf(db, a)); }
      }
    } else {
      OthersRemain(KeysOf(db, a), k);
      var o :| o in KeysOf(db, a) - {k};
      assert o == Key(o.ws, a) && IsMember(db, o.ws, a);
    }
  }

  // ----- what each call does -----

  /** The members with one membership's role replaced. */
  ghost predicate OnlyRoleChanged(db: Db, db': Db, k: Key, role: Role) {
    && db' == db.(mems := db'.mems) && db'.mems.Keys == db.mems.Keys
    && forall j :: j in db.mems ==> db'.mems[j] == if j == k then db.mems[j].(role := role) else db.mems[j]
  }

  /** An admin or an owner changes a role; an owner's takes an owner, and the last owner stays one. */
  lemma ChangingARole(db: Db, who: Acting, member: Id, role: Role)
    requires who.tenant in db.orgs && IsMember(db, who.tenant, who.actor) && IsMember(db, who.tenant, member)
    ensures
      var w := who.tenant;
      var out := Serial(db, ChangeRole(who, member, role));
      var may := && Manages(db, w, who.actor)
                 && ((Owns(db, w, member) || role == Owner) ==> Owns(db, w, who.actor));
      var last := Owns(db, w, member) && role != Owner && !AnotherOwns(db, w, member);
      && (out == Refused(Forbidden) <==> !may)
      && (out == Refused(LastOwner) <==> may && last)
      && (out.Done? <==> may && !last)
      && (out.Done? ==> OnlyRoleChanged(db, out.db, Key(w, member), role) && out.role == Some(db.mems[Key(w, member)].role))
  {
    if Owns(db, who.tenant, member) { OneOwnerIsLast(db, who.tenant, member); }
  }

  /** The invitations an account sent for a workspace and that are still open, revoked; every other as it was. */
  ghost predicate SentAreRevoked(db: Db, db': Db, w: Id, from: Id, now: int) {
    && db'.invs.Keys == db.invs.Keys
    && forall i :: i in db.invs ==>
         db'.invs[i] == if db.invs[i].tenant == w && db.invs[i].invitedBy == from && Open(db.invs[i])
                        then db.invs[i].(revokedAt := Some(now)) else db.invs[i]
  }

  /** One membership gone, with the invitations that member had sent. */
  ghost predicate Gone(db: Db, db': Db, w: Id, a: Id, now: int) {
    && db' == db.(mems := db'.mems, invs := db'.invs) && db'.mems == db.mems - {Key(w, a)}
    && SentAreRevoked(db, db', w, a, now)
  }

  /** An admin or an owner removes someone else, but not the last owner nor from their last workspace. */
  lemma RemovingAMember(db: Db, who: Acting, member: Id, now: int)
    requires who.tenant in db.orgs && IsMember(db, who.tenant, who.actor) && IsMember(db, who.tenant, member)
    ensures
      var w := who.tenant;
      var out := Serial(db, RemoveMember(who, member, now));
      var may := && member != who.actor && Manages(db, w, who.actor)
                 && (Owns(db, w, member) ==> Owns(db, w, who.actor));
      var last := Owns(db, w, member) && !AnotherOwns(db, w, member);
      && (out == Refused(Forbidden) <==> !may)
      && (out == Refused(LastOwner) <==> may && last)
      && (out == Refused(OnlyWorkspace) <==> may && !last && !BelongsElsewhere(db, w, member))
      && (out.Done? <==> may && !last && BelongsElsewhere(db, w, member))
      && (out.Done? ==> Gone(db, out.db, w, member, now) && out.role == Some(db.mems[Key(w, member)].role))
  {
    if Owns(db, who.tenant, member) { OneOwnerIsLast(db, who.tenant, member); }
    OneWorkspaceIsLast(db, who.tenant, member);
  }

  /** Anyone leaves, but the last owner, and from their last workspace. */
  lemma LeavingAWorkspace(db: Db, who: Acting, now: int)
    requires who.tenant in db.orgs && IsMember(db, who.tenant, who.actor)
    ensures
      var w := who.tenant;
      var out := Serial(db, Leave(who, now));
      var last := Owns(db, w, who.actor) && !AnotherOwns(db, w, who.actor);
      && (out == Refused(LastOwner) <==> last)
      && (out == Refused(OnlyWorkspace) <==> !last && !BelongsElsewhere(db, w, who.actor))
      && (out.Done? <==> !last && BelongsElsewhere(db, w, who.actor))
      && (out.Done? ==> Gone(db, out.db, w, who.actor, now) && out.role == Some(db.mems[Key(w, who.actor)].role))
  {
    if Owns(db, who.tenant, who.actor) { OneOwnerIsLast(db, who.tenant, who.actor); }
    OneWorkspaceIsLast(db, who.tenant, who.actor);
  }

  /** The new invitation, for a week; the open ones to the same address revoked; every other as it was. */
  ghost predicate Invited(db: Db, db': Db, who: Acting, email: Email, role: Role, id: Id, now: int) {
    && db' == db.(invs := db'.invs) && db'.invs.Keys == db.invs.Keys + {id}
    && db'.invs[id] == Inv(who.tenant, email, role, who.actor, now, now + 604800, None, None, None)
    && forall i :: i in db.invs && i != id ==>
         db'.invs[i] == if db.invs[i].tenant == who.tenant && db.invs[i].email == email && Open(db.invs[i])
                        then db.invs[i].(revokedAt := Some(now)) else db.invs[i]
  }

  /** An account of the workspace has the address. */
  ghost predicate HasMember(db: Db, w: Id, email: Email) {
    exists a :: IsMember(db, w, a) && a in db.users && db.users[a].email == email
  }

  /** An open owner's invitation to the address, which only an owner may replace. */
  ghost predicate ReplacesAnOwners(db: Db, w: Id, email: Email, now: int) {
    exists i :: i in db.invs && db.invs[i].tenant == w && db.invs[i].email == email && Open(db.invs[i])
                && now < db.invs[i].expiresAt && db.invs[i].role == Owner
  }

  lemma MembersByEmail(db: Db, w: Id, email: Email)
    ensures IsMemberByEmail(db, w, email) <==> HasMember(db, w, email)
  {
    if IsMemberByEmail(db, w, email) {
      var k :| k in db.mems && k.ws == w && k.acct in db.users && db.users[k.acct].email == email;
      assert k == Key(w, k.acct) && IsMember(db, w, k.acct);
    }
    if HasMember(db, w, email) {
      var a :| IsMember(db, w, a) && a in db.users && db.users[a].email == email;
      assert Key(w, a) in db.mems;
    }
  }

  lemma MayReplaceExactly(db: Db, me: Role, w: Id, email: Email, now: int)
    requires me == Admin || me == Owner
    ensures MayReplace(db, me, w, email, now) <==> me == Owner || !ReplacesAnOwners(db, w, email, now)
  {
  }

  lemma PendingAfter(db: Db, w: Id, email: Email, now: int)
    ensures PendingIds(db.invs + ReplacedRevoked(db, w, email, now), w, now) == OpenToOthers(db, w, email, now)
  {
  }

  /** An admin or an owner, by the request's role and by the row's; of an owner's invitation, an owner by both. */
  predicate MayInvite(db: Db, who: Acting, role: Role) {
    && Manages(db, who.tenant, who.actor) && (role == Owner ==> Owns(db, who.tenant, who.actor))
    && who.role in {Admin, Owner} && (role == Owner ==> who.role == Owner)
  }

  lemma InvitingWrites(db: Db, who: Acting, email: Email, role: Role, id: Id, now: int)
    requires id !in db.invs && Serial(db, CreateInvitation(who, email, role, id, now)).Done?
    ensures Invited(db, Serial(db, CreateInvitation(who, email, role, id, now)).db, who, email, role, id, now)
  {
  }

  /**
    Such a member invites an address no member has, replacing an owner's open invitation only as an owner; at most fifty
    invitations of the workspace are open at a time, the replaced ones not counted.
  */
  lemma Inviting(db: Db, who: Acting, email: Email, role: Role, id: Id, now: int)
    requires who.tenant in db.orgs && IsMember(db, who.tenant, who.actor) && id !in db.invs
    ensures
      var w := who.tenant;
      var out := Serial(db, CreateInvitation(who, email, role, id, now));
      var may, taken := MayInvite(db, who, role), HasMember(db, w, email);
      var mayReplace := ReplacesAnOwners(db, w, email, now) ==> Owns(db, w, who.actor);
      && (out == Refused(AlreadyMember) <==> may && taken)
      && (out == Refused(Forbidden) <==> !may || (!taken && !mayReplace))
      && (out == Refused(TooManyInvites) <==> may && !taken && mayReplace && |OpenToOthers(db, w, email, now)| >= 50)
      && (out.Done? <==> may && !taken && mayReplace && |OpenToOthers(db, w, email, now)| < 50)
      && (out.Done? ==> Invited(db, out.db, who, email, role, id, now))
  {
    MembersByEmail(db, who.tenant, email);
    PendingAfter(db, who.tenant, email, now);
    if Manages(db, who.tenant, who.actor) {
      MayReplaceExactly(db, db.mems[Key(who.tenant, who.actor)].role, who.tenant, email, now);
    }
    if Serial(db, CreateInvitation(who, email, role, id, now)).Done? { InvitingWrites(db, who, email, role, id, now); }
  }

  ghost predicate OnlyInvitation(db: Db, db': Db, id: Id) {
    && db' == db.(invs := db'.invs) && db'.invs.Keys == db.invs.Keys
    && forall i :: i in db.invs && i != id ==> db'.invs[i] == db.invs[i]
  }

  /** An admin or an owner takes an open invitation back; an owner's takes an owner. */
  lemma TakingBack(db: Db, who: Acting, id: Id, now: int)
    requires who.tenant in db.orgs && IsMember(db, who.tenant, who.actor)
    ensures
      var w := who.tenant;
      var out := Serial(db, RevokeInvitation(who, id, now));
      var there := id in db.invs && db.invs[id].tenant == w && Open(db.invs[id]);
      var may := Manages(db, w, who.actor) && (there && db.invs[id].role == Owner ==> Owns(db, w, who.actor));
      && (out == Refused(NotFound) <==> !there)
      && (out == Refused(Forbidden) <==> there && !may)
      && (out.Done? <==> there && may)
      && (out.Done? ==> && OnlyInvitation(db, out.db, id) && out.db.invs[id] == db.invs[id].(revokedAt := Some(now))
                        && out.role == Some(db.invs[id].role))
  {
  }

  /** The invitation used up, and the account a member: with the invited role, or as it was if it was one already. */
  ghost predicate Joined(db: Db, db': Db, token: Id, actor: Id, now: int)
    requires token in db.invs
  {
    var inv := db.invs[token];
    var k := Key(inv.tenant, actor);
    && OnlyInvitation(db.(mems := db'.mems), db', token)
    && db'.invs[token] == inv.(acceptedAt := Some(now), acceptedBy := Some(actor))
    && db'.mems == if k in db.mems then db.mems else db.mems[k := Mem(inv.role, now)]
  }

  /**
    A link works once, for a week at most, unless it was taken back, while its inviter may still send it, and only for
    the verified address it was sent to.
  */
  lemma Accepting(db: Db, actor: Id, token: Id, now: int)
    requires token in db.invs && db.invs[token].tenant in db.orgs
    ensures
      var inv := db.invs[token];
      var out := Serial(db, AcceptInvitation(actor, token, now));
      var works := && Open(inv) && now < inv.expiresAt && Manages(db, inv.tenant, inv.invitedBy)
                   && (inv.role == Owner ==> Owns(db, inv.tenant, inv.invitedBy));
      var theirs := actor in db.users && db.users[actor].email == inv.email;
      && (out == Refused(InvalidInvite) <==> !works)
      && (out == Refused(WrongAccount) <==> works && !theirs)
      && (out == Refused(EmailUnverified) <==> works && theirs && !db.users[actor].verified)
      && (out.Done? <==> works && theirs && db.users[actor].verified)
      && (out.Done? ==> Joined(db, out.db, token, actor, now) && out.role == Some(out.db.mems[Key(inv.tenant, actor)].role))
  {
  }

  /** An account that has no workspace of its own makes one and owns it; one that has changes nothing. */
  lemma MakingOnesOwn(db: Db, user: Id, now: int)
    ensures
      var out := Serial(db, CreatePersonal(user, now));
      && out.Done? && out.role == None
      && (user in db.orgs ==> out.db == db)
      && (user !in db.orgs ==>
            && out.db == db.(orgs := out.db.orgs, mems := out.db.mems) && out.db.orgs == db.orgs + {user}
            && out.db.mems == if IsMember(db, user, user) then db.mems else db.mems[Key(user, user) := Mem(Owner, now)])
  {
  }

  /** Where nothing is as it should be, the first thing that is not decides the refusal, and nobody else's absence does. */
  lemma StrangersAreRefused(db: Db, who: Acting, member: Id, role: Role, email: Email, id: Id, now: int)
    ensures who.tenant !in db.orgs ==>
      && Serial(db, ChangeRole(who, member, role)) == Refused(NotFound) && Serial(db, Leave(who, now)) == Refused(NotFound)
      && Serial(db, RevokeInvitation(who, id, now)) == Refused(NotFound)
      && (member != who.actor ==> Serial(db, RemoveMember(who, member, now)) == Refused(NotFound))
    ensures who.tenant in db.orgs && !IsMember(db, who.tenant, who.actor) ==>
      && Serial(db, ChangeRole(who, member, role)) == Refused(Forbidden) && Serial(db, Leave(who, now)) == Refused(NotFound)
      && Serial(db, RemoveMember(who, member, now)) == Refused(Forbidden)
      && Serial(db, RevokeInvitation(who, id, now)) == Refused(Forbidden)
      && Serial(db, CreateInvitation(who, email, role, id, now)) == Refused(Forbidden)
    ensures who.tenant in db.orgs && IsMember(db, who.tenant, who.actor) && !IsMember(db, who.tenant, member) ==>
      && Serial(db, ChangeRole(who, member, role)) == Refused(NotFound)
      && (member != who.actor ==> Serial(db, RemoveMember(who, member, now)) == Refused(NotFound))
    ensures id !in db.invs ==> Serial(db, AcceptInvitation(member, id, now)) == Refused(InvalidInvite)
  {
  }
}
