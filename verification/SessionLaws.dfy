/**
  Where a session acts and which sessions a removal ends (web/lib/workspaces.ts:84-99, web/lib/sessions.ts:77-87),
  said of the membership and session rows themselves.
*/
module SessionLaws {
  import opened Common
  import opened Roles
  import opened MembershipSpec
  import opened MemberStore

  /** The order of joining: by time, then by workspace id. */
  predicate JoinedNoLater(db: Db, user: Id, w: Id, v: Id)
    requires Key(w, user) in db.mems && Key(v, user) in db.mems
  {
    var a, b := db.mems[Key(w, user)].createdAt, db.mems[Key(v, user)].createdAt;
    a < b || (a == b && w <= v)
  }

  /** The account's own workspace if it is a member there; else the one it joined first. */
  ghost predicate IsDefault(db: Db, user: Id, w: Id) {
    && Key(w, user) in db.mems
    && (if Key(user, user) in db.mems then w == user
        else forall v :: Key(v, user) in db.mems ==> JoinedNoLater(db, user, w, v))
  }

  lemma OldestIsFirst(db: Db, user: Id, w: Id)
    requires HasWorkspace(db, user) && Key(w, user) in db.mems
    ensures Oldest(db, user).ws == w <==> forall v :: Key(v, user) in db.mems ==> JoinedNoLater(db, user, w, v)
  {
    var o := Oldest(db, user);
    assert o == Key(o.ws, user) && Key(w, user) in KeysOf(db, user);
    forall v | Key(v, user) in db.mems ensures JoinedNoLater(db, user, o.ws, v) {
      assert Key(v, user) in KeysOf(db, user);
    }
  }

  lemma SomeMembership(db: Db, user: Id)
    ensures HasWorkspace(db, user) <==> exists w :: Key(w, user) in db.mems
  {
    if HasWorkspace(db, user) {
      var k :| k in KeysOf(db, user);
      assert Key(k.ws, user) in db.mems;
    }
    if w :| Key(w, user) in db.mems { assert Key(w, user) in KeysOf(db, user); }
  }

  /**
    A session that chose a workspace acts there while its account is a member, and else nowhere; one that chose none
    acts in the default, and only an account with no membership and no workspace row has one made.
  */
  lemma WhereASessionActs(db: Db, user: Id, chosen: Option<Id>, w: Id)
    ensures
      var r := Resolve(db, user, chosen);
      var member := exists v :: Key(v, user) in db.mems;
      && (r.ActsIn? && r.ws == w <==>
            if chosen.Some? then w == chosen.value && Key(w, user) in db.mems else IsDefault(db, user, w))
      && (r.ActsIn? ==> Key(r.ws, user) in db.mems && r.role == db.mems[Key(r.ws, user)].role)
      && (r.MakesPersonal? <==> chosen == None && !member && user !in db.orgs)
      && (r.Nowhere? <==> if chosen.Some? then Key(chosen.value, user) !in db.mems else !member && user in db.orgs)
  {
    SomeMembership(db, user);
    if HasWorkspace(db, user) {
      var o := Oldest(db, user);
      assert o == Key(o.ws, user);
      OldestIsFirst(db, user, o.ws);
      if Key(w, user) in db.mems { OldestIsFirst(db, user, w); }
    }
  }

  /** A removal ends the member's unexpired, unrevoked sessions that act in the workspace, and touches no other. */
  lemma ARemovalEnds(db: Db, sessions: Sessions, member: Id, w: Id, remover: Id, now: int, i: Id)
    requires i in sessions
    ensures
      var s := sessions[i];
      var there := if s.active.Some? then s.active.value == w && Key(w, member) in db.mems else IsDefault(db, member, w);
      var ends := s.user == member && s.revokedAt == None && now < s.expiresAt && there;
      && Offboarded(db, sessions, member, w, remover, now).Keys == sessions.Keys
      && Offboarded(db, sessions, member, w, remover, now)[i] ==
           if ends then Session(s.user, s.active, s.expiresAt, Some(now), Some(remover)) else s
  {
    WhereASessionActs(db, member, sessions[i].active, w);
  }

  /** Leaving unpoints the account's sessions that chose the workspace, and touches no other. */
  lemma LeavingUnpoints(sessions: Sessions, member: Id, w: Id, i: Id)
    requires i in sessions
    ensures
      var s := sessions[i];
      && Unpointed(sessions, member, w).Keys == sessions.Keys
      && Unpointed(sessions, member, w)[i] ==
           if s.user == member && s.active == Some(w) then Session(s.user, None, s.expiresAt, s.revokedAt, s.revokedBy) else s
  {
  }
}
