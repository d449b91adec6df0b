/**
  The membership store on an engine that runs one transaction at a time: each function of
  web/lib/workspace-members.ts as a sequence of statements on the tables, with the sessions that
  web/lib/sessions.ts and web/lib/workspaces.ts read and revoke. A thrown error rolls the tables back.
*/
module MemberStore {
  import opened Common
  import opened Roles
  import opened MembershipSpec

  /** A session row: its account, the workspace it chose (none: the default), and when it was revoked and by whom. */
  datatype Session = Session(user: Id, active: Option<Id>, expiresAt: int, revokedAt: Option<int>, revokedBy: Option<Id>)

  type Sessions = map<Id, Session>

  predicate Live(s: Session, now: int) {
    s.revokedAt.None? && s.expiresAt > now
  }

  // ----- where a session acts -----

  /** ORDER BY created_at, tenant_id among one account's memberships. */
  predicate Before(mems: map<Key, Mem>, j: Key, k: Key)
    requires j in mems && k in mems
  {
    mems[j].createdAt < mems[k].createdAt || (mems[j].createdAt == mems[k].createdAt && j.ws <= k.ws)
  }

  predicate IsOldest(db: Db, a: Id, k: Key) {
    k in KeysOf(db, a) && forall j :: j in KeysOf(db, a) ==> Before(db.mems, k, j)
  }

  lemma {:induction false} OldestOf(db: Db, a: Id, keys: set<Key>) returns (k: Key)
    requires keys != {} && keys <= KeysOf(db, a)
    ensures k in keys && forall j :: j in keys ==> Before(db.mems, k, j)
    decreases keys
  {
    var x :| x in keys;
    if keys == {x} {
      k := x;
    } else {
      var rest := OldestOf(db, a, keys - {x});
      k := if Before(db.mems, x, rest) then x else rest;
      forall j | j in keys ensures Before(db.mems, k, j) {
        if j != x { assert Before(db.mems, rest, j); }
      }
    }
  }

  lemma OldestExists(db: Db, a: Id)
    requires HasWorkspace(db, a)
    ensures exists k :: IsOldest(db, a, k)
  {
    var k := OldestOf(db, a, KeysOf(db, a));
    assert IsOldest(db, a, k);
  }

  /** The account's oldest membership. */
  function Oldest(db: Db, a: Id): (k: Key)
    requires HasWorkspace(db, a)
    ensures IsOldest(db, a, k)
  {
    OldestExists(db, a);
    assert forall j, k | IsOldest(db, a, j) && IsOldest(db, a, k) :: Before(db.mems, j, k) && Before(db.mems, k, j);
    var k :| k in KeysOf(db, a) && IsOldest(db, a, k);
    k
  }

  /** What resolveMembership answers, and whether it makes the personal workspace on the way. */
  datatype Resolution = ActsIn(ws: Id, role: Role) | Nowhere | MakesPersonal

  function Resolve(db: Db, user: Id, active: Option<Id>): Resolution {
    match active
    case Some(w) =>
      (match RoleOf(db, w, user)
       case Some(r) => ActsIn(w, r)
       case None => Nowhere)
    case None =>
      match RoleOf(db, user, user)
      case Some(r) => ActsIn(user, r)
      case None =>
        if HasWorkspace(db, user) then
          var k := Oldest(db, user);
          ActsIn(k.ws, db.mems[k].role)
        else if user !in db.orgs then MakesPersonal
        else Nowhere
  }

  /** The session acts in workspace w. */
  predicate Acts(db: Db, s: Session, w: Id) {
    Resolve(db, s.user, s.active).ActsIn? && Resolve(db, s.user, s.active).ws == w
  }

  /** The member's live sessions acting in w, revoked now by `by`; every other session as it was. */
  function Offboarded(db: Db, sessions: Sessions, member: Id, w: Id, remover: Id, now: int): Sessions {
    map i | i in sessions ::
      if sessions[i].user == member && Live(sessions[i], now) && Acts(db, sessions[i], w)
      then sessions[i].(revokedAt := Some(now), revokedBy := Some(remover)) else sessions[i]
  }

  /** The member's sessions that chose w, back to choosing none. */
  function Unpointed(sessions: Sessions, member: Id, w: Id): Sessions {
    map i | i in sessions ::
      if sessions[i].user == member && sessions[i].active == Some(w) then sessions[i].(active := None) else sessions[i]
  }

  // ----- offboarding against resolution -----

  /** A default that is not the deleted membership stays the default. */
  lemma DefaultStays(db: Db, db': Db, a: Id, k: Key)
    requires HasWorkspace(db, a) && k in db.mems && k.acct == a
    requires db'.mems == db.mems - {k}
    requires Oldest(db, a) != k
    ensures HasWorkspace(db', a) && Oldest(db', a) == Oldest(db, a)
  {
    var o, o' := Oldest(db, a), Oldest(db, a);
    assert o in KeysOf(db', a);
    assert KeysOf(db', a) == KeysOf(db, a) - {k};
    o' := Oldest(db', a);
    assert Before(db.mems, o, o') && Before(db'.mems, o', o);
  }

  /**
    Removal, as a whole: afterwards none of the member's live sessions acts in the workspace; every session
    that survives acts exactly where it did, with the same role; and no session of theirs is left for
    resolveMembership to make a new workspace for.
  */
  lemma OffboardingMatchesResolution(db: Db, sessions: Sessions, who: Acting, member: Id, now: int, i: Id)
    requires ValidDb(db) && Serial(db, RemoveMember(who, member, now)).Done?
    requires i in sessions && Live(sessions[i], now)
    ensures
      var db' := Serial(db, RemoveMember(who, member, now)).db;
      var sessions' := Offboarded(db, sessions, member, who.tenant, who.actor, now);
      var s, s' := sessions[i], sessions'[i];
      && (Live(s', now) <==> !(s.user == member && Acts(db, s, who.tenant)))
      && (Live(s', now) ==> s' == s && Resolve(db', s.user, s.active) == Resolve(db, s.user, s.active))
      && (Live(s', now) && s.user == member ==> !Acts(db', s, who.tenant) && !Resolve(db', s.user, s.active).MakesPersonal?)
  {
    var db' := Serial(db, RemoveMember(who, member, now)).db;
    var k := Key(who.tenant, member);
    var s := sessions[i];
    if s.user == member && !Acts(db, s, who.tenant) && s.active.None? && RoleOf(db, member, member).None? {
      DefaultStays(db, db', member, k);
    }
    if s.user != member { KeysElsewhere(db, db', s.user, k); }
    if s.user == member {
      assert KeysOf(db', member) == KeysOf(db, member) - {k};
      OthersRemain(KeysOf(db, member), k);
    }
  }

  /** Another account's memberships, and so its default, are untouched. */
  lemma KeysElsewhere(db: Db, db': Db, a: Id, k: Key)
    requires db'.mems == db.mems - {k} && k.acct != a
    ensures KeysOf(db', a) == KeysOf(db, a)
    ensures HasWorkspace(db, a) ==> Oldest(db', a) == Oldest(db, a)
  {
    assert KeysOf(db', a) == KeysOf(db, a);
    if HasWorkspace(db, a) {
      var o, o' := Oldest(db, a), Oldest(db', a);
      assert Before(db.mems, o, o') && Before(db'.mems, o', o);
    }
  }

  /**
    Leaving: every session of the account that acted somewhere still acts somewhere, never in the workspace
    left and never by making a new one; a session that acted elsewhere acts in the same place.
  */
  lemma LeavingKeepsSessionsWorking(db: Db, sessions: Sessions, who: Acting, now: int, i: Id)
    requires ValidDb(db) && Serial(db, Leave(who, now)).Done?
    requires i in sessions && sessions[i].user == who.actor && Resolve(db, who.actor, sessions[i].active).ActsIn?
    ensures
      var db' := Serial(db, Leave(who, now)).db;
      var s' := Unpointed(sessions, who.actor, who.tenant)[i];
      var before, after := Resolve(db, who.actor, sessions[i].active), Resolve(db', who.actor, s'.active);
      && after.ActsIn? && after.ws != who.tenant
      && (before.ws != who.tenant ==> after == before)
  {
    var db' := Serial(db, Leave(who, now)).db;
    var k := Key(who.tenant, who.actor);
    assert KeysOf(db', who.actor) == KeysOf(db, who.actor) - {k};
    OthersRemain(KeysOf(db, who.actor), k);
    if RoleOf(db, who.actor, who.actor).None? && Oldest(db, who.actor) != k {
      DefaultStays(db, db', who.actor, k);
    }
  }

  // ----- the store -----

  class Store {
    var orgs: set<Id>
    var users: map<Id, User>
    var mems: map<Key, Mem>
    var invs: map<Id, Inv>
    var sessions: Sessions

    function Tables(): Db
      reads this
    {
      Db(orgs, users, mems, invs)
    }

    constructor ()
      ensures Tables() == Db({}, map[], map[], map[]) && sessions == map[]
    {
      orgs, users, mems, invs, sessions := {}, map[], map[], map[], map[];
    }

    method ChangeRole(who: Acting, member: Id, role: Role) returns (r: Result<Role, Error>)
      modifies `mems
      ensures
        match Serial(old(Tables()), MembershipSpec.ChangeRole(who, member, role))
        case Done(db, was) => r.Ok? && was == Some(r.value) && Tables() == db
        case Refused(e) => r == Err(e) && Tables() == old(Tables())
    {
      if who.tenant !in orgs { return Err(NotFound); }
      var me := RoleOf(Tables(), who.tenant, who.actor);
      if me.None? { return Err(Forbidden); }
      var current := RoleOf(Tables(), who.tenant, member);
      if current.None? { return Err(NotFound); }
      if !MayManage(me.value, current, Some(role)) { return Err(Forbidden); }
      if current.value == Owner && role != Owner {
        var n := |OwnerKeys(Tables(), who.tenant)|;
        if n <= 1 { return Err(LastOwner); }
      }
      if current.value != role {
        var k := Key(who.tenant, member);
        mems := mems[k := mems[k].(role := role)];
      }
      return Ok(current.value);
    }

    /** Ends the member's live sessions that act in the workspace, reading the default as it is before the removal. */
    method RevokeWorkspaceSessions(user: Id, tenant: Id, remover: Id, now: int)
      requires Key(tenant, user) in mems
      modifies `sessions
      ensures sessions == Offboarded(Tables(), old(sessions), user, tenant, remover, now)
    {
      var default: Option<Id> := None;
      if Key(user, user) in mems {
        default := Some(user);
      } else if HasWorkspace(Tables(), user) {
        default := Some(Oldest(Tables(), user).ws);
      }
      if default == Some(tenant) {
        sessions := map i | i in sessions ::
          if sessions[i].user == user && sessions[i].revokedAt.None? && sessions[i].expiresAt > now
             && (sessions[i].active == Some(tenant) || sessions[i].active.None?)
          then sessions[i].(revokedAt := Some(now), revokedBy := Some(remover)) else sessions[i];
      } else {
        sessions := map i | i in sessions ::
          if sessions[i].user == user && sessions[i].revokedAt.None? && sessions[i].expiresAt > now
             && sessions[i].active == Some(tenant)
          then sessions[i].(revokedAt := Some(now), revokedBy := Some(remover)) else sessions[i];
      }
    }

    method RemoveMember(who: Acting, member: Id, now: int) returns (r: Result<Role, Error>)
      modifies `mems, `invs, `sessions
      ensures
        match Serial(old(Tables()), MembershipSpec.RemoveMember(who, member, now))
        case Done(db, was) =>
          && r.Ok? && was == Some(r.value) && Tables() == db
          && sessions == Offboarded(old(Tables()), old(sessions), member, who.tenant, who.actor, now)
        case Refused(e) => r == Err(e) && Tables() == old(Tables()) && sessions == old(sessions)
    {
      if member == who.actor { return Err(Forbidden); }
      if who.tenant !in orgs { return Err(NotFound); }
      var me := RoleOf(Tables(), who.tenant, who.actor);
      if me.None? { return Err(Forbidden); }
      var current := RoleOf(Tables(), who.tenant, member);
      if current.None? { return Err(NotFound); }
      if !MayManage(me.value, current, None) { return Err(Forbidden); }
      if current.value == Owner {
        var n := |OwnerKeys(Tables(), who.tenant)|;
        if n <= 1 { return Err(LastOwner); }
      }
      var workspaces := |KeysOf(Tables(), member)|;
      if workspaces <= 1 { return Err(OnlyWorkspace); }
      RevokeWorkspaceSessions(member, who.tenant, who.actor, now);
      invs := invs + SentRevoked(Tables(), who.tenant, member, now);
      mems := mems - {Key(who.tenant, member)};
      return Ok(current.value);
    }

    method Leave(who: Acting, now: int) returns (r: Result<Role, Error>)
      modifies `mems, `invs, `sessions
      ensures
        match Serial(old(Tables()), MembershipSpec.Leave(who, now))
        case Done(db, was) =>
          && r.Ok? && was == Some(r.value) && Tables() == db
          && sessions == Unpointed(old(sessions), who.actor, who.tenant)
        case Refused(e) => r == Err(e) && Tables() == old(Tables()) && sessions == old(sessions)
    {
      if who.tenant !in orgs { return Err(NotFound); }
      var current := RoleOf(Tables(), who.tenant, who.actor);
      if current.None? { return Err(NotFound); }
      if current.value == Owner {
        var n := |OwnerKeys(Tables(), who.tenant)|;
        if n <= 1 { return Err(LastOwner); }
      }
      var workspaces := |KeysOf(Tables(), who.actor)|;
      if workspaces <= 1 { return Err(OnlyWorkspace); }
      invs := invs + SentRevoked(Tables(), who.tenant, who.actor, now);
      mems := mems - {Key(who.tenant, who.actor)};
      sessions := Unpointed(sessions, who.actor, who.tenant);
      return Ok(current.value);
    }

    method CreateInvitation(who: Acting, email: Email, role: Role, id: Id, now: int) returns (r: Result<(), Error>)
      modifies `invs
      ensures
        match Serial(old(Tables()), MembershipSpec.CreateInvitation(who, email, role, id, now))
        case Done(db, _) => r.Ok? && Tables() == db
        case Refused(e) => r == Err(e) && Tables() == old(Tables())
    {
      if !MayManage(who.role, None, Some(role)) { return Err(Forbidden); }
      if who.tenant !in orgs { return Err(NotFound); }
      var me := RoleOf(Tables(), who.tenant, who.actor);
      if me.None? { return Err(Forbidden); }
      if !MayManage(me.value, None, Some(role)) { return Err(Forbidden); }
      var member := IsMemberByEmail(Tables(), who.tenant, email);
      if member { return Err(AlreadyMember); }
      var mayReplace := MayReplace(Tables(), me.value, who.tenant, email, now);
      if !mayReplace { return Err(Forbidden); }
      var before := invs;
      invs := invs + ReplacedRevoked(Tables(), who.tenant, email, now);
      var pending := |PendingIds(invs, who.tenant, now)|;
      if pending >= MAX_PENDING_INVITES {
        invs := before;  // rolled back
        return Err(TooManyInvites);
      }
      invs := invs[id := NewInvitation(who, email, role, now)];
      return Ok(());
    }

    method RevokeInvitation(who: Acting, id: Id, now: int) returns (r: Result<Role, Error>)
      modifies `invs
      ensures
        match Serial(old(Tables()), MembershipSpec.RevokeInvitation(who, id, now))
        case Done(db, role) => r.Ok? && role == Some(r.value) && Tables() == db
        case Refused(e) => r == Err(e) && Tables() == old(Tables())
    {
      if who.tenant !in orgs { return Err(NotFound); }
      var me := RoleOf(Tables(), who.tenant, who.actor);
      if me.None? { return Err(Forbidden); }
      if !(id in invs && invs[id].tenant == who.tenant && Unused(invs[id])) { return Err(NotFound); }
      if !MayManage(me.value, None, Some(invs[id].role)) { return Err(Forbidden); }
      invs := invs[id := invs[id].(revokedAt := Some(now))];
      return Ok(invs[id].role);
    }

    /** Returns the role held afterwards and whether the account joined now. */
    method AcceptInvitation(actor: Id, token: Id, now: int) returns (r: Result<(Role, bool), Error>)
      modifies `mems, `invs
      ensures
        match Serial(old(Tables()), MembershipSpec.AcceptInvitation(actor, token, now))
        case Done(db, role) =>
          && r.Ok? && role == Some(r.value.0) && Tables() == db
          && (r.value.1 <==> mems != old(mems))
        case Refused(e) => r == Err(e) && Tables() == old(Tables())
    {
      if !(token in invs && Pending(invs[token], now)) { return Err(InvalidInvite); }
      var inv := invs[token];
      if inv.tenant !in orgs { return Err(NotFound); }
      var inviter := RoleOf(Tables(), inv.tenant, inv.invitedBy);
      if inviter.None? { return Err(InvalidInvite); }
      if !MayManage(inviter.value, None, Some(inv.role)) { return Err(InvalidInvite); }
      invs := invs[token := inv.(acceptedAt := Some(now), acceptedBy := Some(actor))];
      if !(actor in users && users[actor].email == inv.email) {
        invs := invs[token := inv];  // rolled back
        assert invs == old(invs);
        return Err(WrongAccount);
      }
      if !users[actor].verified {
        invs := invs[token := inv];  // rolled back
        assert invs == old(invs);
        return Err(EmailUnverified);
      }
      var k := Key(inv.tenant, actor);
      var joined := k !in mems;
      if joined { mems := mems[k := Mem(inv.role, now)]; }
      assert joined ==> k in mems && k !in old(mems);
      return Ok((mems[k].role, joined));
    }

    /** Where a session of `user` acts; an account with no workspace row at all gets its personal one here. */
    method ResolveMembership(user: Id, active: Option<Id>, now: int) returns (r: Option<(Id, Role)>)
      modifies `orgs, `mems
      ensures
        match Resolve(old(Tables()), user, active)
        case ActsIn(w, role) => r == Some((w, role)) && Tables() == old(Tables())
        case Nowhere => r == None && Tables() == old(Tables())
        case MakesPersonal =>
          && r == Some((user, Owner))
          && Serial(old(Tables()), CreatePersonal(user, now)) == Done(Tables(), None)
    {
      if active.Some? {
        var role := RoleOf(Tables(), active.value, user);
        if role.None? { return None; }
        return Some((active.value, role.value));
      }
      var own := RoleOf(Tables(), user, user);
      if own.Some? { return Some((user, own.value)); }
      if HasWorkspace(Tables(), user) {
        var first := Oldest(Tables(), user);
        return Some((first.ws, mems[first].role));
      }
      if user !in orgs {
        orgs := orgs + {user};
        if Key(user, user) !in mems { mems := mems[Key(user, user) := Mem(Owner, now)]; }
        return Some((user, Owner));
      }
      return None;
    }
  }
}
