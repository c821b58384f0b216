/** The project-scoped permission loader (`checkProjectAccess`) and the
    first-match permission evaluator (`requirePermission`). */
module Permissions {
  import opened Wrappers
  import opened Store

  /** The capabilities a route can require. */
  datatype PermissionType =
    | CanManageMembers
    | CanManageRoles
    | CanAssignTasks
    | CanDeleteTasks
    | CanManageProject
    | IsOwner
    | CanEdit

  /** The custom role bound to a membership, as the access query's LEFT JOIN
      sees it: a reference to a role row that no longer exists yields nulls,
      and a null flag is falsy. */
  datatype BoundRole = BoundRole(id: Id, name: Option<string>, level: Option<PermissionLevel>, flags: Flags)

  /** What `checkProjectAccess` attaches to the request. */
  datatype ProjectPermissions = ProjectPermissions(isOwner: bool, role: Role, projectRole: Option<BoundRole>)

  /** The route parameters the project id may be taken from. A falsy value
      (absent, null or the empty string) is `None`. */
  datatype Params = Params(projectId: Option<Id>, id: Option<Id>)

  /** `req.params.projectId || req.params.id || req.body.projectId` */
  function ResolveProjectId(params: Params, bodyProjectId: Option<Id>): Option<Id>
  {
    if params.projectId.Some? then params.projectId
    else if params.id.Some? then params.id
    else bodyProjectId
  }

  function BoundRoleOf(db: Database, roleId: Id): (b: BoundRole)
    reads db
    ensures b.id == roleId
    ensures roleId in db.roles ==>
      b.flags == db.roles[roleId].flags && b.name == Some(db.roles[roleId].name) && b.level == Some(db.roles[roleId].level)
    ensures roleId !in db.roles ==> b.flags == NoFlags && b.name.None? && b.level.None?
  {
    if roleId in db.roles then
      var pr := db.roles[roleId];
      BoundRole(roleId, Some(pr.name), Some(pr.level), pr.flags)
    else BoundRole(roleId, None, None, NoFlags)
  }

  /** The access query and its three error answers. */
  function LoadAccess(db: Database, userId: Id, params: Params, bodyProjectId: Option<Id>)
    : (r: Result<(Id, ProjectPermissions), Failure>)
    reads db
    ensures ResolveProjectId(params, bodyProjectId).None? ==> r == Failure(Http(400, "Project ID required"))
    ensures r.Success? <==> ResolveProjectId(params, bodyProjectId).Some? && db.IsParty(ResolveProjectId(params, bodyProjectId).value, userId)
    ensures r.Success? ==> r.value.0 == ResolveProjectId(params, bodyProjectId).value
    ensures r.Success? ==> (r.value.1.isOwner <==> db.IsOwnerOf(r.value.0, userId))
    ensures r.Success? ==> (r.value.1.role == Owner <==> r.value.1.isOwner)
  {
    match ResolveProjectId(params, bodyProjectId)
    case None => Failure(Http(400, "Project ID required"))
    case Some(pid) =>
      if pid !in db.projects then Failure(Http(404, "Project not found"))
      else
        var isOwner := db.projects[pid].owner == userId;
        var m := db.MembershipOf(pid, userId);
        if !isOwner && m.None? then Failure(Http(403, "Access denied to this project"))
        else
          var role: Role := if isOwner then Owner else db.members[m.value].role;
          var bound :=
            if m.Some? && db.members[m.value].projectRole.Some?
            then Some(BoundRoleOf(db, db.members[m.value].projectRole.value))
            else None;
          Success((pid, ProjectPermissions(isOwner, role, bound)))
  }

  /** Whether `projectRole` has a key named after the permission. */
  predicate IsRoleFlag(p: PermissionType)
  {
    !(p == IsOwner || p == CanEdit)
  }

  function FlagFor(flags: Flags, p: PermissionType): bool
  {
    match p
    case CanManageMembers => flags.canManageMembers
    case CanManageRoles => flags.canManageRoles
    case CanAssignTasks => flags.canAssignTasks
    case CanDeleteTasks => flags.canDeleteTasks
    case CanManageProject => flags.canManageProject
    case IsOwner => false
    case CanEdit => false
  }

  /** The decision chain of `requirePermission`; `None` means the loader did not run. */
  function RequirePermission(perms: Option<ProjectPermissions>, p: PermissionType): (r: Outcome<Failure>)
    ensures r.Fail? ==> r.error.Http? && r.error.status == 403
  {
    match perms
    case None => Fail(Http(403, "Permissions not loaded"))
    case Some(pp) =>
      if pp.isOwner then Pass
      else if pp.role == Admin && p != IsOwner then Pass
      else if p == IsOwner then Fail(Http(403, "Only project owner can perform this action"))
      else if p == CanEdit then
        if pp.role == Viewer then Fail(Http(403, "Viewers cannot edit")) else Pass
      else if pp.projectRole.Some? && IsRoleFlag(p) && FlagFor(pp.projectRole.value.flags, p) then Pass
      else Fail(Http(403, "Insufficient permissions"))
  }

  /** The evaluation order of the design: an owner-only capability first,
      then the owner bypass, the admin bypass, the coarse edit rule, and the
      custom role's flag. An independent statement of the same policy. */
  predicate Allows(pp: ProjectPermissions, p: PermissionType)
  {
    if p == IsOwner then pp.isOwner
    else if pp.isOwner then true
    else if pp.role == Admin then true
    else if p == CanEdit then pp.role != Viewer
    else pp.projectRole.Some? && FlagFor(pp.projectRole.value.flags, p)
  }

  /** The gate of the team routes: `checkProjectAccess` on `/projects/:projectId/...`
      followed by `requirePermission(p)`. */
  function Authorize(db: Database, userId: Id, projectId: Id, p: PermissionType): (r: Outcome<Failure>)
    reads db
    ensures r.Pass? ==> db.IsParty(projectId, userId)
  {
    match LoadAccess(db, userId, Params(Some(projectId), None), None)
    case Failure(e) => Fail(e)
    case Success((_, pp)) => RequirePermission(Some(pp), p)
  }

  /** The gate of the two team list routes: project access only. */
  function AccessOnly(db: Database, userId: Id, projectId: Id): (r: Outcome<Failure>)
    reads db
    ensures r.Pass? <==> db.IsParty(projectId, userId)
  {
    match LoadAccess(db, userId, Params(Some(projectId), None), None)
    case Failure(e) => Fail(e)
    case Success(_) => Pass
  }

  class PermissionRequest {
    const userId: Id
    const params: Params
    const bodyProjectId: Option<Id>
    var projectId: Option<Id>
    var permissions: Option<ProjectPermissions>

    constructor (userId: Id, params: Params, bodyProjectId: Option<Id>)
      ensures this.userId == userId && this.params == params && this.bodyProjectId == bodyProjectId
      ensures projectId.None? && permissions.None?
    {
      this.userId, this.params, this.bodyProjectId := userId, params, bodyProjectId;
      projectId, permissions := None, None;
    }

    /** `checkProjectAccess`: on success it records the project id and the
        loaded permissions on the request and continues; otherwise it answers
        and leaves the request as it was. */
    method CheckProjectAccess(db: Database) returns (o: Outcome<Failure>)
      modifies this
      ensures LoadAccess(db, userId, params, bodyProjectId).Failure? ==>
        o == Fail(LoadAccess(db, userId, params, bodyProjectId).error)
        && projectId == old(projectId) && permissions == old(permissions)
      ensures LoadAccess(db, userId, params, bodyProjectId).Success? ==>
        o.Pass?
        && projectId == Some(LoadAccess(db, userId, params, bodyProjectId).value.0)
        && permissions == Some(LoadAccess(db, userId, params, bodyProjectId).value.1)
    {
      var pid := ResolveProjectId(params, bodyProjectId);
      if pid.None? {
        return Fail(Http(400, "Project ID required"));
      }
      if pid.value !in db.projects {
        return Fail(Http(404, "Project not found"));
      }
      var isOwner := db.projects[pid.value].owner == userId;
      var membership := db.MembershipOf(pid.value, userId);
      if !isOwner && membership.None? {
        return Fail(Http(403, "Access denied to this project"));
      }
      var role: Role := if isOwner then Owner else db.members[membership.value].role;
      var bound: Option<BoundRole> := None;
      if membership.Some? && db.members[membership.value].projectRole.Some? {
        bound := Some(BoundRoleOf(db, db.members[membership.value].projectRole.value));
      }
      projectId := pid;
      permissions := Some(ProjectPermissions(isOwner, role, bound));
      o := Pass;
    }
  }

  // ---- Properties of the evaluator ----

  lemma OwnerAllowedEverything(pp: ProjectPermissions, p: PermissionType)
    requires pp.isOwner
    ensures RequirePermission(Some(pp), p) == Pass
  {
  }

  lemma AdminAllowedAllButOwnerOnly(pp: ProjectPermissions, p: PermissionType)
    requires !pp.isOwner && pp.role == Admin
    ensures RequirePermission(Some(pp), p).Pass? <==> p != IsOwner
  {
  }

  lemma NonOwnerDeniedOwnerOnly(pp: ProjectPermissions)
    requires !pp.isOwner
    ensures RequirePermission(Some(pp), IsOwner) == Fail(Http(403, "Only project owner can perform this action"))
  {
  }

  /** For a non-owner non-admin, editing is denied exactly to viewers, whatever custom role is bound. */
  lemma EditDeniedIffViewer(pp: ProjectPermissions, bound: Option<BoundRole>)
    requires !pp.isOwner && pp.role != Admin
    ensures RequirePermission(Some(pp), CanEdit).Fail? <==> pp.role == Viewer
    ensures RequirePermission(Some(pp.(projectRole := bound)), CanEdit) == RequirePermission(Some(pp), CanEdit)
  {
  }

  /** For a non-owner non-admin, a fine-grained capability is allowed exactly
      when a custom role is bound and its flag is set; the role's
      `permissionLevel` and name play no part. */
  lemma FlagAllowedIffBoundAndSet(pp: ProjectPermissions, p: PermissionType, level: Option<PermissionLevel>, name: Option<string>)
    requires !pp.isOwner && pp.role != Admin && IsRoleFlag(p)
    ensures RequirePermission(Some(pp), p).Pass? <==> pp.projectRole.Some? && FlagFor(pp.projectRole.value.flags, p)
    ensures pp.projectRole.Some? ==>
      RequirePermission(Some(pp.(projectRole := Some(pp.projectRole.value.(level := level, name := name)))), p)
      == RequirePermission(Some(pp), p)
  {
  }

  lemma NotLoadedDenied(p: PermissionType)
    ensures RequirePermission(None, p) == Fail(Http(403, "Permissions not loaded"))
  {
  }

  /** The source's chain (owner bypass first) and the design's order
      (owner-only capability first) decide alike on every input. */
  lemma ChainMatchesDesignOrder(pp: ProjectPermissions, p: PermissionType)
    ensures RequirePermission(Some(pp), p).Pass? <==> Allows(pp, p)
  {
  }

  predicate FlagsAtMost(f: Flags, g: Flags)
  {
    && (f.canManageMembers ==> g.canManageMembers)
    && (f.canManageRoles ==> g.canManageRoles)
    && (f.canAssignTasks ==> g.canAssignTasks)
    && (f.canDeleteTasks ==> g.canDeleteTasks)
    && (f.canManageProject ==> g.canManageProject)
  }

  /** Turning custom-role flags on never turns an allow into a deny. */
  lemma FlagsMonotone(pp: ProjectPermissions, b: BoundRole, more: Flags, p: PermissionType)
    requires pp.projectRole == Some(b) && FlagsAtMost(b.flags, more)
    ensures RequirePermission(Some(pp), p).Pass? ==> RequirePermission(Some(pp.(projectRole := Some(b.(flags := more)))), p).Pass?
  {
  }

  /** Binding a custom role never turns an allow into a deny. */
  lemma BindingRoleMonotone(pp: ProjectPermissions, b: BoundRole, p: PermissionType)
    requires pp.projectRole.None?
    ensures RequirePermission(Some(pp), p).Pass? ==> RequirePermission(Some(pp.(projectRole := Some(b))), p).Pass?
  {
  }

  /** A membership still pointing at a deleted role decides exactly as one whose
      reference was cleared: the member falls back to the coarse-role rules. */
  lemma DanglingRoleActsAsNoRole(db: Database, pp: ProjectPermissions, roleId: Id, p: PermissionType)
    requires roleId !in db.roles && pp.projectRole == Some(BoundRoleOf(db, roleId))
    ensures RequirePermission(Some(pp), p) == RequirePermission(Some(pp.(projectRole := None)), p)
  {
  }

  // ---- Properties of the loader ----

  /** The first non-empty of `params.projectId`, `params.id`, `body.projectId` is used. */
  lemma ProjectIdPrecedence(db: Database, userId: Id, params: Params, bodyProjectId: Option<Id>)
    ensures params.projectId.Some? ==>
      LoadAccess(db, userId, params, bodyProjectId) == LoadAccess(db, userId, Params(params.projectId, None), None)
    ensures params.projectId.None? && params.id.Some? ==>
      LoadAccess(db, userId, params, bodyProjectId) == LoadAccess(db, userId, Params(params.id, None), None)
    ensures params.projectId.None? && params.id.None? ==>
      LoadAccess(db, userId, params, bodyProjectId) == LoadAccess(db, userId, Params(bodyProjectId, None), None)
  {
  }

  lemma UnknownProjectIsNotFound(db: Database, userId: Id, params: Params, bodyProjectId: Option<Id>)
    requires ResolveProjectId(params, bodyProjectId).Some? && ResolveProjectId(params, bodyProjectId).value !in db.projects
    ensures LoadAccess(db, userId, params, bodyProjectId) == Failure(Http(404, "Project not found"))
  {
  }

  /** A user who neither owns nor belongs to an existing project gets 403 from
      the loader, and so from every gate, whatever the capability. */
  lemma OutsiderDenied(db: Database, userId: Id, projectId: Id, p: PermissionType)
    requires projectId in db.projects && !db.IsParty(projectId, userId)
    ensures LoadAccess(db, userId, Params(Some(projectId), None), None) == Failure(Http(403, "Access denied to this project"))
    ensures Authorize(db, userId, projectId, p) == Fail(Http(403, "Access denied to this project"))
    ensures AccessOnly(db, userId, projectId) == Fail(Http(403, "Access denied to this project"))
  {
  }

  /** Because the owner never has a membership row, the owner's loaded
      permissions carry no custom role. */
  lemma OwnerHasNoBoundRole(db: Database, projectId: Id)
    requires db.Valid() && projectId in db.projects
    ensures LoadAccess(db, db.projects[projectId].owner, Params(Some(projectId), None), None)
      == Success((projectId, ProjectPermissions(true, Owner, None)))
  {
  }

  /** A member's loaded permissions are their membership's coarse role and,
      when the membership names a custom role, that role's row as joined,
      whichever project the role row belongs to. */
  lemma MemberPermissions(db: Database, projectId: Id, k: Id)
    requires db.Valid() && k in db.members && db.members[k].project == projectId && projectId in db.projects
    ensures
      var m := db.members[k];
      LoadAccess(db, m.user, Params(Some(projectId), None), None)
      == Success((projectId, ProjectPermissions(false, m.role,
           if m.projectRole.Some? then Some(BoundRoleOf(db, m.projectRole.value)) else None)))
  {
    MembershipOfIsTheMembership(db, projectId, db.members[k].user, k);
  }

  /** The project owner passes every gate of their project. */
  lemma OwnerPassesEveryGate(db: Database, projectId: Id, p: PermissionType)
    requires projectId in db.projects
    ensures Authorize(db, db.projects[projectId].owner, projectId, p) == Pass
  {
  }

  /** A member whose custom role grants only `canManageRoles` may manage roles
      but may not perform an owner-only action. */
  lemma RoleManagerScenario(db: Database, projectId: Id, k: Id)
    requires db.Valid() && k in db.members && db.members[k].project == projectId && projectId in db.projects
    requires db.members[k].role == Member && db.members[k].projectRole.Some?
    requires db.members[k].projectRole.value in db.roles
    requires db.roles[db.members[k].projectRole.value].flags == NoFlags.(canManageRoles := true)
    ensures Authorize(db, db.members[k].user, projectId, CanManageRoles) == Pass
    ensures Authorize(db, db.members[k].user, projectId, CanManageMembers).Fail?
    ensures Authorize(db, db.members[k].user, projectId, CanEdit) == Pass
    ensures Authorize(db, db.members[k].user, projectId, IsOwner) == Fail(Http(403, "Only project owner can perform this action"))
  {
    MemberPermissions(db, projectId, k);
  }
}
