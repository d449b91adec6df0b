/** Roles, the two actions membership asks about, and who may manage whom (web/lib/workspaces.ts, web/lib/workspace-members.ts). */
module Roles {
  import opened Common

  datatype Role = Viewer | Operator | Admin | Owner

  datatype Action = Members | Owners

  function Rank(r: Role): nat {
    match r
    case Viewer => 0
    case Operator => 1
    case Admin => 2
    case Owner => 3
  }

  /** The lowest role allowed to take the action. */
  function Least(a: Action): Role {
    match a
    case Members => Admin
    case Owners => Owner
  }

  predicate Can(r: Role, a: Action) {
    Rank(r) >= Rank(Least(a))
  }

  /** Granting or touching the owner role takes Owners; everything else Members. */
  predicate MayManage(who: Role, target: Option<Role>, next: Option<Role>) {
    && Can(who, Members)
    && ((target != Some(Owner) && next != Some(Owner)) || Can(who, Owners))
  }
}
