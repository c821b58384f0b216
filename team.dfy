/** The team routes: the members and roles lists, the custom-role registry
    (create, partial update, delete) and membership management (add, partial
    update, remove), each behind the permission gate. */
module Team {
  import opened Wrappers
  import opened Store
  import opened Permissions
  import Rows

  // ---- Request schemas ----

  /** `createRoleSchema` after parsing; the flags are still optional because
      their `.default(false)` is applied by `NewRole`. */
  datatype CreateRoleInput = CreateRoleInput(
    name: string,
    description: Option<string>,
    level: PermissionLevel,
    canManageMembers: Option<bool>,
    canManageRoles: Option<bool>,
    canAssignTasks: Option<bool>,
    canDeleteTasks: Option<bool>,
    canManageProject: Option<bool>)

  /** `z.string().min(1).max(255)`, measured in UTF-16 code units. */
  predicate ValidRoleName(name: string)
  {
    1 <= Utf16Length(name) <= 255
  }

  /** The row `INSERT INTO project_roles` writes for a valid create request. */
  function NewRole(projectId: Id, input: CreateRoleInput, now: nat): ProjectRole
  {
    ProjectRole(projectId, input.name, OrNull(input.description), input.level,
      Flags(input.canManageMembers.GetOr(false), input.canManageRoles.GetOr(false),
        input.canAssignTasks.GetOr(false), input.canDeleteTasks.GetOr(false),
        input.canManageProject.GetOr(false)),
      now)
  }

  /** `createRoleSchema.partial()`: every field optional, no defaults applied. */
  datatype RolePatch = RolePatch(
    name: Option<string>,
    description: Option<string>,
    level: Option<PermissionLevel>,
    canManageMembers: Option<bool>,
    canManageRoles: Option<bool>,
    canAssignTasks: Option<bool>,
    canDeleteTasks: Option<bool>,
    canManageProject: Option<bool>)
  {
    predicate IsEmpty()
    {
      name.None? && description.None? && level.None? && canManageMembers.None? && canManageRoles.None?
      && canAssignTasks.None? && canDeleteTasks.None? && canManageProject.None?
    }

    predicate IsValid()
    {
      name.Some? ==> ValidRoleName(name.value)
    }
  }

  const NoRoleChange := RolePatch(None, None, None, None, None, None, None, None)

  /** The role with every field the patch supplies replaced and the others kept. */
  function PatchRole(r: ProjectRole, p: RolePatch): ProjectRole
  {
    r.(name := p.name.GetOr(r.name),
       description := if p.description.Some? then p.description else r.description,
       level := p.level.GetOr(r.level),
       flags := Flags(
         p.canManageMembers.GetOr(r.flags.canManageMembers),
         p.canManageRoles.GetOr(r.flags.canManageRoles),
         p.canAssignTasks.GetOr(r.flags.canAssignTasks),
         p.canDeleteTasks.GetOr(r.flags.canDeleteTasks),
         p.canManageProject.GetOr(r.flags.canManageProject)))
  }

  /** One `column = value` item of the `UPDATE project_roles SET ...` list. */
  datatype RoleColumn =
    | RoleName(name: string)
    | RoleDescription(description: string)
    | RoleLevel(level: PermissionLevel)
    | RoleManageMembers(b: bool)
    | RoleManageRoles(b: bool)
    | RoleAssignTasks(b: bool)
    | RoleDeleteTasks(b: bool)
    | RoleManageProject(b: bool)

  function SetRoleColumn(r: ProjectRole, c: RoleColumn): ProjectRole
  {
    match c
    case RoleName(n) => r.(name := n)
    case RoleDescription(d) => r.(description := Some(d))
    case RoleLevel(l) => r.(level := l)
    case RoleManageMembers(b) => r.(flags := r.flags.(canManageMembers := b))
    case RoleManageRoles(b) => r.(flags := r.flags.(canManageRoles := b))
    case RoleAssignTasks(b) => r.(flags := r.flags.(canAssignTasks := b))
    case RoleDeleteTasks(b) => r.(flags := r.flags.(canDeleteTasks := b))
    case RoleManageProject(b) => r.(flags := r.flags.(canManageProject := b))
  }

  /** The effect of `SET c1, c2, ...` on one row. */
  function SetRoleColumns(r: ProjectRole, cs: seq<RoleColumn>): ProjectRole
  {
    if cs == [] then r else SetRoleColumn(SetRoleColumns(r, cs[..|cs| - 1]), cs[|cs| - 1])
  }

  lemma SetRoleColumnsSnoc(cs: seq<RoleColumn>, c: RoleColumn)
    ensures forall r :: SetRoleColumns(r, cs + [c]) == SetRoleColumn(SetRoleColumns(r, cs), c)
  {
    assert (cs + [c])[..|cs|] == cs;
  }

  /** The patch `q` extended with the field one SET item writes. */
  function ExtendRolePatch(q: RolePatch, c: RoleColumn): RolePatch
  {
    match c
    case RoleName(n) => q.(name := Some(n))
    case RoleDescription(d) => q.(description := Some(d))
    case RoleLevel(l) => q.(level := Some(l))
    case RoleManageMembers(b) => q.(canManageMembers := Some(b))
    case RoleManageRoles(b) => q.(canManageRoles := Some(b))
    case RoleAssignTasks(b) => q.(canAssignTasks := Some(b))
    case RoleDeleteTasks(b) => q.(canDeleteTasks := Some(b))
    case RoleManageProject(b) => q.(canManageProject := Some(b))
  }

  /** The patch a SET list amounts to: each item supplies its field, a later
      item for the same field wins. */
  function PatchOfColumns(cs: seq<RoleColumn>): RolePatch
  {
    if cs == [] then NoRoleChange else ExtendRolePatch(PatchOfColumns(cs[..|cs| - 1]), cs[|cs| - 1])
  }

  lemma PatchOfColumnsSnoc(cs: seq<RoleColumn>, c: RoleColumn)
    ensures PatchOfColumns(cs + [c]) == ExtendRolePatch(PatchOfColumns(cs), c)
  {
    assert (cs + [c])[..|cs|] == cs;
  }

  /** Writing one more column after a patch is the patch extended by it. */
  lemma SetAfterPatch(r: ProjectRole, q: RolePatch, c: RoleColumn)
    ensures SetRoleColumn(PatchRole(r, q), c) == PatchRole(r, ExtendRolePatch(q, c))
  {
  }

  /** Applying a SET list to a row is applying the patch it amounts to. */
  lemma {:induction false} SetColumnsIsPatch(r: ProjectRole, cs: seq<RoleColumn>)
    ensures SetRoleColumns(r, cs) == PatchRole(r, PatchOfColumns(cs))
    decreases |cs|
  {
    if cs != [] {
      var init, c := cs[..|cs| - 1], cs[|cs| - 1];
      SetColumnsIsPatch(r, init);
      SetAfterPatch(r, PatchOfColumns(init), c);
    } else {
      assert PatchRole(r, NoRoleChange) == r;
    }
  }

  /** A SET list is empty exactly when the patch it amounts to is. */
  lemma PatchOfColumnsEmpty(cs: seq<RoleColumn>)
    ensures cs == [] <==> PatchOfColumns(cs).IsEmpty()
  {
  }

  /** The five flag items of the SET list, pushed after the items already
      in `updates`, in the order of the schema. */
  method PushFlagColumns(p: RolePatch, updates0: seq<RoleColumn>) returns (updates: seq<RoleColumn>)
    requires PatchOfColumns(updates0) == p.(canManageMembers := None, canManageRoles := None,
      canAssignTasks := None, canDeleteTasks := None, canManageProject := None)
    ensures PatchOfColumns(updates) == p
  {
    updates := updates0;
    ghost var q := PatchOfColumns(updates0);
    if p.canManageMembers.Some? {
      PatchOfColumnsSnoc(updates, RoleManageMembers(p.canManageMembers.value));
      updates := updates + [RoleManageMembers(p.canManageMembers.value)];
    }
    q := RolePatch(p.name, p.description, p.level, p.canManageMembers, None, None, None, None);
    assert PatchOfColumns(updates) == q;
    if p.canManageRoles.Some? {
      PatchOfColumnsSnoc(updates, RoleManageRoles(p.canManageRoles.value));
      updates := updates + [RoleManageRoles(p.canManageRoles.value)];
    }
    q := RolePatch(p.name, p.description, p.level, p.canManageMembers, p.canManageRoles, None, None, None);
    assert PatchOfColumns(updates) == q;
    if p.canAssignTasks.Some? {
      PatchOfColumnsSnoc(updates, RoleAssignTasks(p.canAssignTasks.value));
      updates := updates + [RoleAssignTasks(p.canAssignTasks.value)];
    }
    q := RolePatch(p.name, p.description, p.level, p.canManageMembers, p.canManageRoles, p.canAssignTasks, None, None);
    assert PatchOfColumns(updates) == q;
    if p.canDeleteTasks.Some? {
      PatchOfColumnsSnoc(updates, RoleDeleteTasks(p.canDeleteTasks.value));
      updates := updates + [RoleDeleteTasks(p.canDeleteTasks.value)];
    }
    q := RolePatch(p.name, p.description, p.level, p.canManageMembers, p.canManageRoles, p.canAssignTasks, p.canDeleteTasks, None);
    assert PatchOfColumns(updates) == q;
    if p.canManageProject.Some? {
      PatchOfColumnsSnoc(updates, RoleManageProject(p.canManageProject.value));
      updates := updates + [RoleManageProject(p.canManageProject.value)];
    }
    q := RolePatch(p.name, p.description, p.level, p.canManageMembers, p.canManageRoles, p.canAssignTasks, p.canDeleteTasks, p.canManageProject);
    assert PatchOfColumns(updates) == q;
  }

  /** Builds the SET list the way the handler does: one item per field the
      patch supplies, in the order of the schema. Applying it to any row is
      the field-wise patch, and it is empty exactly for the empty patch. */
  method RoleUpdates(p: RolePatch) returns (updates: seq<RoleColumn>)
    ensures updates == [] <==> p.IsEmpty()
    ensures forall r :: SetRoleColumns(r, updates) == PatchRole(r, p)
  {
    ghost var q := NoRoleChange;
    updates := [];
    if p.name.Some? {
      PatchOfColumnsSnoc(updates, RoleName(p.name.value));
      updates := updates + [RoleName(p.name.value)];
    }
    q := RolePatch(p.name, None, None, None, None, None, None, None);
    assert PatchOfColumns(updates) == q;
    if p.description.Some? {
      PatchOfColumnsSnoc(updates, RoleDescription(p.description.value));
      updates := updates + [RoleDescription(p.description.value)];
    }
    q := RolePatch(p.name, p.description, None, None, None, None, None, None);
    assert PatchOfColumns(updates) == q;
    if p.level.Some? {
      PatchOfColumnsSnoc(updates, RoleLevel(p.level.value));
      updates := updates + [RoleLevel(p.level.value)];
    }
    q := RolePatch(p.name, p.description, p.level, None, None, None, None, None);
    assert PatchOfColumns(updates) == q;
    updates := PushFlagColumns(p, updates);
    PatchOfColumnsEmpty(updates);
    forall r ensures SetRoleColumns(r, updates) == PatchRole(r, p) {
      SetColumnsIsPatch(r, updates);
    }
  }

  /** A patch never moves a role to another project or changes its creation
      time, supplying the same patch twice changes nothing more, and the
      empty patch changes nothing at all. */
  lemma PatchRoleFacts(r: ProjectRole, p: RolePatch)
    ensures PatchRole(r, p).project == r.project && PatchRole(r, p).createdAt == r.createdAt
    ensures PatchRole(PatchRole(r, p), p) == PatchRole(r, p)
    ensures p.IsEmpty() ==> PatchRole(r, p) == r
  {
  }

  // ---- Members list ----

  /** One row of the members list (`GET /projects/:projectId/members`). */
  datatype MemberRow = MemberRow(
    membershipId: Option<Id>,
    user: Id,
    email: string,
    fullName: Option<string>,
    avatarUrl: Option<string>,
    jobTitle: Option<string>,
    role: Role,
    joinedAt: nat,
    projectRoleId: Option<Id>,
    projectRoleName: Option<string>,
    projectRoleDescription: Option<string>)

  /** The first half of the union: membership `k` joined with its user and,
      by a left join, with the role it references. A null or dangling role
      reference gives null role columns. */
  function MemberRowOf(us: map<Id, User>, rs: map<Id, ProjectRole>, k: Id, m: Membership): (x: MemberRow)
    requires m.user in us
    ensures x.membershipId == Some(k) && x.user == m.user && x.role == m.role && x.joinedAt == m.joinedAt
    ensures x.projectRoleId.Some? <==> m.projectRole.Some? && m.projectRole.value in rs
    ensures x.projectRoleId.Some? ==> x.projectRoleId == m.projectRole && x.projectRoleName == Some(rs[m.projectRole.value].name)
    ensures x.projectRoleId.None? ==> x.projectRoleName.None? && x.projectRoleDescription.None?
  {
    var u := us[m.user];
    if m.projectRole.Some? && m.projectRole.value in rs then
      var pr := rs[m.projectRole.value];
      MemberRow(Some(k), m.user, u.email, u.fullName, u.avatarUrl, u.jobTitle, m.role, m.joinedAt,
        m.projectRole, Some(pr.name), pr.description)
    else
      MemberRow(Some(k), m.user, u.email, u.fullName, u.avatarUrl, u.jobTitle, m.role, m.joinedAt,
        None, None, None)
  }

  /** The join reads nothing of the users table but the member's row (its
      email, name, avatar and job title) and nothing of the roles table but
      the referenced role's name and description. */
  lemma MemberRowReadsOnlyJoinedRows(us: map<Id, User>, vs: map<Id, User>, rs: map<Id, ProjectRole>,
                                     qs: map<Id, ProjectRole>, k: Id, m: Membership)
    requires m.user in us && m.user in vs
    ensures MemberRowOf(us, rs, k, m) == MemberRowOf(vs, qs, k, m) <==>
      && us[m.user].email == vs[m.user].email && us[m.user].fullName == vs[m.user].fullName
      && us[m.user].avatarUrl == vs[m.user].avatarUrl && us[m.user].jobTitle == vs[m.user].jobTitle
      && (m.projectRole.Some? ==>
            && (m.projectRole.value in rs <==> m.projectRole.value in qs)
            && (m.projectRole.value in rs ==>
                  rs[m.projectRole.value].name == qs[m.projectRole.value].name
                  && rs[m.projectRole.value].description == qs[m.projectRole.value].description))
  {
  }

  /** The second half of the union: the owner, with a null membership id,
      the pseudo-role `owner`, and the project's creation time as join time. */
  function OwnerRowOf(us: map<Id, User>, p: Project): (x: MemberRow)
    requires p.owner in us
    ensures x.membershipId.None? && x.role == Owner && x.user == p.owner && x.joinedAt == p.createdAt
  {
    var u := us[p.owner];
    MemberRow(None, p.owner, u.email, u.fullName, u.avatarUrl, u.jobTitle, Owner, p.createdAt,
      None, Some("Project Owner"), Some("Full control over the project"))
  }

  function JoinedAt(x: MemberRow): int
  {
    x.joinedAt
  }

  /** Only memberships whose user row exists survive the inner join. */
  function ListedMembership(pid: Id, us: map<Id, User>): Membership -> bool
  {
    (m: Membership) => m.project == pid && m.user in us
  }

  /** `r` is an answer of the members query for project `pid`: exactly the
      joined membership rows of the project and the owner row, each once,
      in ascending order of join time. */
  ghost predicate IsMemberList(r: seq<MemberRow>, db: Database, pid: Id)
    reads db
  {
    && (forall x :: x in r ==>
          (x.membershipId.None? && pid in db.projects && db.projects[pid].owner in db.users
           && x == OwnerRowOf(db.users, db.projects[pid]))
          || (x.membershipId.Some? && x.membershipId.value in db.members
              && ListedMembership(pid, db.users)(db.members[x.membershipId.value])
              && x == MemberRowOf(db.users, db.roles, x.membershipId.value, db.members[x.membershipId.value])))
    && (forall k :: k in db.members && ListedMembership(pid, db.users)(db.members[k]) ==>
          MemberRowOf(db.users, db.roles, k, db.members[k]) in r)
    && (pid in db.projects && db.projects[pid].owner in db.users ==> OwnerRowOf(db.users, db.projects[pid]) in r)
    && Rows.Distinct(r)
    && Rows.SortedBy(r, JoinedAt)
  }

  /** The memberships the first half of the union joins, in ascending id. */
  function ListedMemberships(db: Database, pid: Id): (ms: seq<(Id, Membership)>)
    reads db
    ensures forall i :: 0 <= i < |ms| ==>
      ms[i].0 in db.members && ms[i].1 == db.members[ms[i].0] && ListedMembership(pid, db.users)(ms[i].1)
    ensures forall k :: k in db.members && ListedMembership(pid, db.users)(db.members[k]) ==>
      exists i :: 0 <= i < |ms| && ms[i].0 == k
    ensures forall i, j :: 0 <= i < j < |ms| ==> ms[i].0 < ms[j].0
  {
    Rows.RowsOf(Rows.Restrict(db.members, ListedMembership(pid, db.users)))
  }

  function MembershipRows(us: map<Id, User>, rs: map<Id, ProjectRole>, ms: seq<(Id, Membership)>): (rows: seq<MemberRow>)
    requires forall i :: 0 <= i < |ms| ==> ms[i].1.user in us
    ensures |rows| == |ms|
    ensures forall i :: 0 <= i < |ms| ==> rows[i] == MemberRowOf(us, rs, ms[i].0, ms[i].1)
  {
    seq(|ms|, i requires 0 <= i < |ms| => MemberRowOf(us, rs, ms[i].0, ms[i].1))
  }

  function OwnerRows(db: Database, pid: Id): (rows: seq<MemberRow>)
    reads db
  {
    if pid in db.projects && db.projects[pid].owner in db.users then [OwnerRowOf(db.users, db.projects[pid])] else []
  }

  /** The rows of the union before ordering: the owner row, then one row per
      listed membership in ascending membership id. */
  function UnorderedMemberRows(db: Database, pid: Id): (rows: seq<MemberRow>)
    reads db
  {
    OwnerRows(db, pid) + MembershipRows(db.users, db.roles, ListedMemberships(db, pid))
  }

  lemma UnorderedMemberRowsSound(db: Database, pid: Id)
    ensures forall x :: x in UnorderedMemberRows(db, pid) ==>
          (x.membershipId.None? && pid in db.projects && db.projects[pid].owner in db.users
           && x == OwnerRowOf(db.users, db.projects[pid]))
          || (x.membershipId.Some? && x.membershipId.value in db.members
              && ListedMembership(pid, db.users)(db.members[x.membershipId.value])
              && x == MemberRowOf(db.users, db.roles, x.membershipId.value, db.members[x.membershipId.value]))
  {
    var ms := ListedMemberships(db, pid);
    var mrows := MembershipRows(db.users, db.roles, ms);
    forall x | x in mrows
      ensures x.membershipId.Some? && x.membershipId.value in db.members
              && ListedMembership(pid, db.users)(db.members[x.membershipId.value])
              && x == MemberRowOf(db.users, db.roles, x.membershipId.value, db.members[x.membershipId.value])
    {
      var i :| 0 <= i < |mrows| && mrows[i] == x;
      assert x == MemberRowOf(db.users, db.roles, ms[i].0, ms[i].1);
    }
  }

  lemma UnorderedMemberRowsComplete(db: Database, pid: Id)
    ensures forall k :: k in db.members && ListedMembership(pid, db.users)(db.members[k]) ==>
          MemberRowOf(db.users, db.roles, k, db.members[k]) in UnorderedMemberRows(db, pid)
    ensures pid in db.projects && db.projects[pid].owner in db.users ==>
          OwnerRowOf(db.users, db.projects[pid]) in UnorderedMemberRows(db, pid)
  {
    var ms := ListedMemberships(db, pid);
    var own, mrows := OwnerRows(db, pid), MembershipRows(db.users, db.roles, ms);
    forall k | k in db.members && ListedMembership(pid, db.users)(db.members[k])
      ensures MemberRowOf(db.users, db.roles, k, db.members[k]) in own + mrows
    {
      var i :| 0 <= i < |ms| && ms[i].0 == k;
      assert mrows[i] in mrows;
    }
  }

  lemma MembershipRowIdsDistinct(us: map<Id, User>, rs: map<Id, ProjectRole>, ms: seq<(Id, Membership)>)
    requires forall i :: 0 <= i < |ms| ==> ms[i].1.user in us
    requires forall i, j :: 0 <= i < j < |ms| ==> ms[i].0 < ms[j].0
    ensures forall i :: 0 <= i < |ms| ==> MembershipRows(us, rs, ms)[i].membershipId == Some(ms[i].0)
    ensures forall i, j :: 0 <= i < j < |ms| ==>
      MembershipRows(us, rs, ms)[i].membershipId != MembershipRows(us, rs, ms)[j].membershipId
  {
  }

  lemma OwnerThenMembershipsDistinct(own: seq<MemberRow>, mrows: seq<MemberRow>)
    requires forall i :: 0 <= i < |own| ==> own[i].membershipId.None?
    requires |own| <= 1
    requires forall i :: 0 <= i < |mrows| ==> mrows[i].membershipId.Some?
    requires forall i, j :: 0 <= i < j < |mrows| ==> mrows[i].membershipId != mrows[j].membershipId
    ensures Rows.Distinct(own + mrows)
  {
    var rows := own + mrows;
    forall i, j | 0 <= i < j < |rows| ensures rows[i] != rows[j] {
      if i >= |own| {
        assert rows[i] == mrows[i - |own|] && rows[j] == mrows[j - |own|];
      } else {
        assert rows[j] == mrows[j - |own|];
      }
    }
  }

  lemma UnorderedMemberRowsDistinct(db: Database, pid: Id)
    ensures Rows.Distinct(UnorderedMemberRows(db, pid))
  {
    var ms := ListedMemberships(db, pid);
    MembershipRowIdsDistinct(db.users, db.roles, ms);
    OwnerThenMembershipsDistinct(OwnerRows(db, pid), MembershipRows(db.users, db.roles, ms));
  }

  /** The members list, ordered by join time. */
  function MemberList(db: Database, pid: Id): (r: seq<MemberRow>)
    reads db
    ensures IsMemberList(r, db, pid)
  {
    var rows := UnorderedMemberRows(db, pid);
    var r := Rows.SortBy(rows, JoinedAt);
    UnorderedMemberRowsSound(db, pid);
    UnorderedMemberRowsComplete(db, pid);
    UnorderedMemberRowsDistinct(db, pid);
    Rows.PermutationKeepsDistinct(r, rows);
    assert forall x :: x in r <==> x in rows by {
      forall x ensures x in r <==> x in rows {
        assert x in r <==> x in multiset(r);
        assert x in rows <==> x in multiset(rows);
      }
    }
    r
  }

  /** The owner appears in the members list exactly once, and they are the
      only row with the pseudo-role `owner` and the only row without a
      membership id; every other row is a membership of the project. */
  lemma {:induction false} OwnerListedOnce(db: Database, pid: Id, r: seq<MemberRow>)
    requires IsMemberList(r, db, pid)
    requires pid in db.projects && db.projects[pid].owner in db.users
    ensures multiset(r)[OwnerRowOf(db.users, db.projects[pid])] == 1
    ensures forall i :: 0 <= i < |r| ==> (r[i].role == Owner <==> r[i] == OwnerRowOf(db.users, db.projects[pid]))
    ensures forall i :: 0 <= i < |r| ==> (r[i].membershipId.None? <==> r[i].role == Owner)
  {
    var o := OwnerRowOf(db.users, db.projects[pid]);
    Rows.DistinctCount(r, o);
    assert o in r;
    forall i | 0 <= i < |r| ensures (r[i].role == Owner <==> r[i] == o) && (r[i].membershipId.None? <==> r[i].role == Owner) {
      assert r[i] in r;
      if r[i].membershipId.Some? {
        var k := r[i].membershipId.value;
        var m := db.members[k];
        assert m.role != Owner;
      }
    }
  }

  /** `GET /projects/:projectId/members`. */
  method ListMembers(db: Database, userId: Id, projectId: Id) returns (r: Result<seq<MemberRow>, Failure>)
    ensures AccessOnly(db, userId, projectId).Fail? ==> r == Failure(AccessOnly(db, userId, projectId).error)
    ensures AccessOnly(db, userId, projectId).Pass? ==> r.Success? && IsMemberList(r.value, db, projectId)
  {
    var gate := AccessOnly(db, userId, projectId);
    if gate.Fail? {
      return Failure(gate.error);
    }
    return Success(MemberList(db, projectId));
  }

  // ---- Roles list ----

  function RoleInProject(pid: Id): ProjectRole -> bool
  {
    (pr: ProjectRole) => pr.project == pid
  }

  function RoleCreatedAt(pr: ProjectRole): int
  {
    pr.createdAt
  }

  /** `GET /projects/:projectId/roles`: the project's roles by creation time. */
  method ListRoles(db: Database, userId: Id, projectId: Id) returns (r: Result<seq<(Id, ProjectRole)>, Failure>)
    ensures AccessOnly(db, userId, projectId).Fail? ==> r == Failure(AccessOnly(db, userId, projectId).error)
    ensures AccessOnly(db, userId, projectId).Pass? ==>
      r.Success? && Rows.IsListing(r.value, db.roles, RoleInProject(projectId), RoleCreatedAt)
  {
    var gate := AccessOnly(db, userId, projectId);
    if gate.Fail? {
      return Failure(gate.error);
    }
    return Success(Rows.Listing(db.roles, RoleInProject(projectId), RoleCreatedAt));
  }

  // ---- Role registry ----

  const RoleNameTaken := Http(400, "A role with this name already exists in this project")
  const RoleNotFound := Http(404, "Role not found")

  /** `POST /projects/:projectId/roles`: gated by `canManageRoles`; the schema
      is checked after the gate; the unique (project, name) index turns a
      duplicate name into a 400. */
  method CreateRole(db: Database, userId: Id, projectId: Id, input: CreateRoleInput, now: nat)
    returns (r: Result<Id, Failure>)
    requires db.Valid()
    modifies db`roles, db`nextId
    ensures db.Valid()
    ensures old(Authorize(db, userId, projectId, CanManageRoles)).Fail? ==>
      r == Failure(old(Authorize(db, userId, projectId, CanManageRoles)).error)
    ensures old(Authorize(db, userId, projectId, CanManageRoles)).Pass? && !ValidRoleName(input.name) ==>
      r == Failure(Invalid)
    ensures (old(Authorize(db, userId, projectId, CanManageRoles)).Pass? && ValidRoleName(input.name) &&
      HasRoleNamed(old(db.roles), projectId, input.name)) ==> r == Failure(RoleNameTaken)
    ensures r.Success? <==>
      old(Authorize(db, userId, projectId, CanManageRoles)).Pass? && ValidRoleName(input.name) &&
      !HasRoleNamed(old(db.roles), projectId, input.name)
    ensures r.Success? ==>
      r.value == old(db.nextId) && r.value !in old(db.roles) &&
      db.roles == old(db.roles)[r.value := NewRole(projectId, input, now)] && db.nextId == old(db.nextId) + 1
    ensures r.Failure? ==> db.roles == old(db.roles) && db.nextId == old(db.nextId)
  {
    var gate := Authorize(db, userId, projectId, CanManageRoles);
    if gate.Fail? {
      return Failure(gate.error);
    }
    if !ValidRoleName(input.name) {
      return Failure(Invalid);
    }
    if HasRoleNamed(db.roles, projectId, input.name) {
      return Failure(RoleNameTaken);
    }
    var id := db.nextId;
    db.roles := db.roles[id := NewRole(projectId, input, now)];
    db.nextId := id + 1;
    return Success(id);
  }

  /** Role names are scoped to their project: creating a role in one project
      neither frees nor takes a name in any other. */
  lemma RoleNamesArePerProject(rs: map<Id, ProjectRole>, k: Id, projectId: Id, other: Id,
                               input: CreateRoleInput, now: nat, name: string)
    requires k !in rs && projectId != other
    ensures HasRoleNamed(rs[k := NewRole(projectId, input, now)], other, name) <==> HasRoleNamed(rs, other, name)
  {
    var after := rs[k := NewRole(projectId, input, now)];
    if HasRoleNamed(rs, other, name) {
      var j :| j in rs && rs[j].project == other && rs[j].name == name;
      assert j in after && after[j] == rs[j];
    }
  }

  /** Some role of `project` other than `self` is called `name`. */
  predicate NameTakenByOther(rs: map<Id, ProjectRole>, project: Id, name: string, self: Id)
  {
    exists k :: k in rs && k != self && rs[k].project == project && rs[k].name == name
  }

  /** `PUT /projects/:projectId/roles/:roleId`. A rename onto a name another
      role of the project already has violates the unique index; that error
      is not caught by this handler, so it answers 500. */
  method UpdateRole(db: Database, userId: Id, projectId: Id, roleId: Id, p: RolePatch)
    returns (r: Result<ProjectRole, Failure>)
    requires db.Valid()
    modifies db`roles
    ensures db.Valid()
    ensures old(Authorize(db, userId, projectId, CanManageRoles)).Fail? ==>
      r == Failure(old(Authorize(db, userId, projectId, CanManageRoles)).error)
    ensures old(Authorize(db, userId, projectId, CanManageRoles)).Pass? ==>
      if !p.IsValid() then r == Failure(Invalid)
      else if p.IsEmpty() then r == Failure(NoFieldsToUpdate)
      else if roleId !in old(db.roles) || old(db.roles)[roleId].project != projectId then r == Failure(RoleNotFound)
      else if p.name.Some? && NameTakenByOther(old(db.roles), projectId, p.name.value, roleId) then r == Failure(InternalError)
      else r == Success(PatchRole(old(db.roles)[roleId], p)) && db.roles == old(db.roles)[roleId := r.value]
    ensures r.Failure? ==> db.roles == old(db.roles)
  {
    var gate := Authorize(db, userId, projectId, CanManageRoles);
    if gate.Fail? {
      return Failure(gate.error);
    }
    if !p.IsValid() {
      return Failure(Invalid);
    }
    var updates := RoleUpdates(p);
    if updates == [] {
      return Failure(NoFieldsToUpdate);
    }
    if roleId !in db.roles || db.roles[roleId].project != projectId {
      return Failure(RoleNotFound);
    }
    var updated := SetRoleColumns(db.roles[roleId], updates);
    if updated.name != db.roles[roleId].name && NameTakenByOther(db.roles, projectId, updated.name, roleId) {
      return Failure(InternalError);
    }
    db.roles := db.roles[roleId := updated];
    return Success(updated);
  }

  /** `DELETE /projects/:projectId/roles/:roleId`: removes the role row only;
      memberships that referenced it keep a dangling reference, which the
      gate and the members list treat as no role. */
  method DeleteRole(db: Database, userId: Id, projectId: Id, roleId: Id) returns (r: Result<string, Failure>)
    requires db.Valid()
    modifies db`roles
    ensures db.Valid()
    ensures old(Authorize(db, userId, projectId, CanManageRoles)).Fail? ==>
      r == Failure(old(Authorize(db, userId, projectId, CanManageRoles)).error)
    ensures old(Authorize(db, userId, projectId, CanManageRoles)).Pass? ==>
      if roleId in old(db.roles) && old(db.roles)[roleId].project == projectId
      then r == Success("Role deleted successfully") && db.roles == old(db.roles) - {roleId}
      else r == Failure(RoleNotFound)
    ensures r.Failure? ==> db.roles == old(db.roles)
  {
    var gate := Authorize(db, userId, projectId, CanManageRoles);
    if gate.Fail? {
      return Failure(gate.error);
    }
    if roleId !in db.roles || db.roles[roleId].project != projectId {
      return Failure(RoleNotFound);
    }
    db.roles := db.roles - {roleId};
    return Success("Role deleted successfully");
  }

  // ---- Membership management ----

  /** `addMemberSchema` after parsing: the role defaults to `member`. */
  datatype AddMemberInput = AddMemberInput(email: string, role: Option<MemberRole>, projectRoleId: Option<Id>)

  const UserNotFoundByEmail := Http(404, "User not found with this email")
  const AlreadyMember := Http(400, "User is already a member of this project")
  const IsProjectOwner := Http(400, "User is the project owner")
  const MemberNotFound := Http(404, "Member not found")

  /** The membership row `INSERT INTO project_members` writes. */
  function NewMembership(projectId: Id, user: Id, input: AddMemberInput, now: nat): Membership
  {
    Membership(projectId, user, input.role.GetOr(Member), input.projectRoleId, now)
  }

  /** `POST /projects/:projectId/members`: gated by `canManageMembers`; the
      email must be well formed (`isEmail` stands for the schema's email
      check) and name an existing user who is neither a member nor the owner. */
  method AddMember(db: Database, userId: Id, projectId: Id, input: AddMemberInput, isEmail: string -> bool, now: nat)
    returns (r: Result<Id, Failure>)
    requires db.Valid()
    modifies db`members, db`nextId
    ensures db.Valid()
    ensures old(Authorize(db, userId, projectId, CanManageMembers)).Fail? ==>
      r == Failure(old(Authorize(db, userId, projectId, CanManageMembers)).error)
    ensures old(Authorize(db, userId, projectId, CanManageMembers)).Pass? ==>
      if !isEmail(input.email) then r == Failure(Invalid)
      else if old(UserWithEmail(db.users, input.email)).None? then r == Failure(UserNotFoundByEmail)
      else if old(db.IsMember(projectId, UserWithEmail(db.users, input.email).value)) then r == Failure(AlreadyMember)
      else if old(db.projects[projectId].owner) == old(UserWithEmail(db.users, input.email)).value then r == Failure(IsProjectOwner)
      else
        r == Success(old(db.nextId)) && r.value !in old(db.members) && db.nextId == old(db.nextId) + 1 &&
        db.members == old(db.members)[r.value := NewMembership(projectId, old(UserWithEmail(db.users, input.email)).value, input, now)]
    ensures r.Failure? ==> db.members == old(db.members) && db.nextId == old(db.nextId)
  {
    var gate := Authorize(db, userId, projectId, CanManageMembers);
    if gate.Fail? {
      return Failure(gate.error);
    }
    if !isEmail(input.email) {
      return Failure(Invalid);
    }
    var found := UserWithEmail(db.users, input.email);
    if found.None? {
      return Failure(UserNotFoundByEmail);
    }
    var user := found.value;
    if db.IsMember(projectId, user) {
      return Failure(AlreadyMember);
    }
    if db.projects[projectId].owner == user {
      return Failure(IsProjectOwner);
    }
    var id := db.nextId;
    db.members := db.members[id := NewMembership(projectId, user, input, now)];
    db.nextId := id + 1;
    return Success(id);
  }

  /** `updateMemberSchema` after parsing; `projectRoleId` is absent (`None`),
      explicitly null (`Some(None)`) or a role id. */
  datatype MemberPatch = MemberPatch(role: Option<MemberRole>, projectRoleId: Option<Option<Id>>)
  {
    predicate IsEmpty()
    {
      role.None? && projectRoleId.None?
    }
  }

  function PatchMember(m: Membership, p: MemberPatch): Membership
  {
    m.(role := p.role.GetOr(m.role),
       projectRole := if p.projectRoleId.Some? then p.projectRoleId.value else m.projectRole)
  }

  /** One item of the `UPDATE project_members SET ...` list. */
  datatype MemberColumn = MemberRoleColumn(role: MemberRole) | MemberProjectRoleColumn(projectRole: Option<Id>)

  function SetMemberColumn(m: Membership, c: MemberColumn): Membership
  {
    match c
    case MemberRoleColumn(role) => m.(role := role)
    case MemberProjectRoleColumn(pr) => m.(projectRole := pr)
  }

  function SetMemberColumns(m: Membership, cs: seq<MemberColumn>): Membership
  {
    if cs == [] then m else SetMemberColumn(SetMemberColumns(m, cs[..|cs| - 1]), cs[|cs| - 1])
  }

  /** Builds the SET list the way the handler does; applying it to any row is
      the field-wise patch, and it is empty exactly for the empty patch. */
  method MemberUpdates(p: MemberPatch) returns (updates: seq<MemberColumn>)
    ensures updates == [] <==> p.IsEmpty()
    ensures forall m :: SetMemberColumns(m, updates) == PatchMember(m, p)
  {
    updates := [];
    if p.role.Some? {
      updates := updates + [MemberRoleColumn(p.role.value)];
    }
    if p.projectRoleId.Some? {
      updates := updates + [MemberProjectRoleColumn(p.projectRoleId.value)];
    }
    forall m ensures SetMemberColumns(m, updates) == PatchMember(m, p) {
      if |updates| == 2 {
        assert updates[..1] == [MemberRoleColumn(p.role.value)];
        assert SetMemberColumns(m, updates[..1]) == m.(role := p.role.value);
      } else if |updates| == 1 {
        assert updates[..0] == [];
      }
    }
  }

  /** A member patch never moves a membership to another project or user. */
  lemma PatchMemberFacts(m: Membership, p: MemberPatch)
    ensures PatchMember(m, p).project == m.project && PatchMember(m, p).user == m.user
    ensures PatchMember(m, p).joinedAt == m.joinedAt
    ensures PatchMember(PatchMember(m, p), p) == PatchMember(m, p)
    ensures p.IsEmpty() ==> PatchMember(m, p) == m
  {
  }

  /** The membership `memberId` exists and belongs to `projectId`. */
  predicate MembershipIn(ms: map<Id, Membership>, memberId: Id, projectId: Id)
  {
    memberId in ms && ms[memberId].project == projectId
  }

  /** `PUT /projects/:projectId/members/:memberId`. */
  method UpdateMember(db: Database, userId: Id, projectId: Id, memberId: Id, p: MemberPatch)
    returns (r: Result<Membership, Failure>)
    requires db.Valid()
    modifies db`members
    ensures db.Valid()
    ensures old(Authorize(db, userId, projectId, CanManageMembers)).Fail? ==>
      r == Failure(old(Authorize(db, userId, projectId, CanManageMembers)).error)
    ensures old(Authorize(db, userId, projectId, CanManageMembers)).Pass? ==>
      if p.IsEmpty() then r == Failure(NoFieldsToUpdate)
      else if !MembershipIn(old(db.members), memberId, projectId) then r == Failure(MemberNotFound)
      else r == Success(PatchMember(old(db.members)[memberId], p)) && db.members == old(db.members)[memberId := r.value]
    ensures r.Failure? ==> db.members == old(db.members)
  {
    var gate := Authorize(db, userId, projectId, CanManageMembers);
    if gate.Fail? {
      return Failure(gate.error);
    }
    var updates := MemberUpdates(p);
    if updates == [] {
      return Failure(NoFieldsToUpdate);
    }
    if !MembershipIn(db.members, memberId, projectId) {
      return Failure(MemberNotFound);
    }
    var updated := SetMemberColumns(db.members[memberId], updates);
    db.members := db.members[memberId := updated];
    return Success(updated);
  }

  /** `DELETE /projects/:projectId/members/:memberId`. */
  method RemoveMember(db: Database, userId: Id, projectId: Id, memberId: Id) returns (r: Result<string, Failure>)
    requires db.Valid()
    modifies db`members
    ensures db.Valid()
    ensures old(Authorize(db, userId, projectId, CanManageMembers)).Fail? ==>
      r == Failure(old(Authorize(db, userId, projectId, CanManageMembers)).error)
    ensures old(Authorize(db, userId, projectId, CanManageMembers)).Pass? ==>
      if MembershipIn(old(db.members), memberId, projectId)
      then r == Success("Member removed successfully") && db.members == old(db.members) - {memberId}
      else r == Failure(MemberNotFound)
    ensures r.Failure? ==> db.members == old(db.members)
  {
    var gate := Authorize(db, userId, projectId, CanManageMembers);
    if gate.Fail? {
      return Failure(gate.error);
    }
    if !MembershipIn(db.members, memberId, projectId) {
      return Failure(MemberNotFound);
    }
    db.members := db.members - {memberId};
    return Success("Member removed successfully");
  }
}
