/** The relational store the route handlers share, as one map per table from
    row id to row. Row ids come from `nextId`, which stands for the store's
    unique id generator: an id is never handed out twice. */
module Store {
  import opened Wrappers
  import Rows

  type Id = nat

  /** The coarse role. `Owner` is derived from `Project.owner`; a membership
      row carries one of the other three. */
  datatype Role = Owner | Admin | Member | Viewer

  type MemberRole = r: Role | r != Owner witness Member

  /** Descriptive level of a custom role; no gate consults it. */
  datatype PermissionLevel = Full | Edit | Comment | View

  /** The five fine-grained capabilities of a custom project role. */
  datatype Flags = Flags(
    canManageMembers: bool,
    canManageRoles: bool,
    canAssignTasks: bool,
    canDeleteTasks: bool,
    canManageProject: bool)

  const NoFlags := Flags(false, false, false, false, false)

  datatype Priority = Low | Medium | High | Urgent

  datatype TaskStatus = Todo | InProgress | Done

  datatype User = User(
    email: string,
    passwordHash: string,
    fullName: Option<string>,
    avatarUrl: Option<string>,
    bio: Option<string>,
    jobTitle: Option<string>,
    createdAt: nat)

  datatype Project = Project(name: string, description: Option<string>, owner: Id, createdAt: nat)

  /** A row of `project_members`; `joinedAt` is its `created_at`. */
  datatype Membership = Membership(
    project: Id,
    user: Id,
    role: MemberRole,
    projectRole: Option<Id>,
    joinedAt: nat)

  /** A row of `project_roles`. */
  datatype ProjectRole = ProjectRole(
    project: Id,
    name: string,
    description: Option<string>,
    level: PermissionLevel,
    flags: Flags,
    createdAt: nat)

  datatype Board = Board(project: Id, name: string, position: nat)

  datatype Task = Task(
    title: string,
    description: Option<string>,
    board: Id,
    priority: Priority,
    status: TaskStatus,
    dueDate: Option<string>,
    position: nat,
    createdBy: Id)

  /** An error answer: an HTTP status with its message, or the 400 a schema
      validation error produces (its list of issues is not modelled). */
  datatype Failure = Http(status: nat, message: string) | Invalid

  const InternalError := Http(500, "Internal server error")
  const NoFieldsToUpdate := Http(400, "No fields to update")
  /** The answer of the board and task routes to a caller who is neither the
      owner nor a member of the project. */
  const ProjectForbidden := Http(403, "Not authorized to access this project")

  /** JavaScript's `s || null` for an optional string: the empty string is falsy. */
  function OrNull(s: Option<string>): (r: Option<string>)
    ensures r.Some? <==> s.Some? && s.value != ""
    ensures r.Some? ==> r == s
  {
    if s.Some? && s.value != "" then s else None
  }

  /** JavaScript's `s.length`, which `z.string().min(n)` and `.max(n)` compare:
      the number of UTF-16 code units, two for a character outside the Basic
      Multilingual Plane (a surrogate pair), one for any other. */
  function Utf16Length(s: string): (n: nat)
    ensures |s| <= n <= 2 * |s|
    ensures n == 0 <==> s == []
  {
    if s == [] then 0
    else Utf16Length(s[..|s| - 1]) + (if s[|s| - 1] as int < 0x1_0000 then 1 else 2)
  }

  /** Characters inside the Basic Multilingual Plane take one code unit each,
      so for such text the UTF-16 length is the number of characters. */
  lemma {:induction false} BmpUtf16LengthIsSize(s: string)
    requires forall i :: 0 <= i < |s| ==> s[i] as int < 0x1_0000
    ensures Utf16Length(s) == |s|
    decreases |s|
  {
    if s != [] {
      BmpUtf16LengthIsSize(s[..|s| - 1]);
    }
  }

  /** A character outside the Basic Multilingual Plane takes two code units:
      three emoji have JavaScript length 6. */
  lemma AstralCharsCountTwice()
    ensures |"\U{1F600}\U{1F600}\U{1F600}"| == 3
    ensures Utf16Length("\U{1F600}\U{1F600}\U{1F600}") == 6
  {
    var e := "\U{1F600}\U{1F600}\U{1F600}";
    assert e[..2][..1] == e[..1] && e[..1][..0] == [];
    assert e[..|e| - 1] == e[..2];
    assert e[..2][..|e[..2]| - 1] == e[..1];
  }

  ghost predicate UniqueMemberships(ms: map<Id, Membership>)
  {
    forall a, b :: a in ms && b in ms && ms[a].project == ms[b].project && ms[a].user == ms[b].user ==> a == b
  }

  /** The owner is never materialised as a membership row of their own project. */
  ghost predicate OwnersAreNotMembers(ps: map<Id, Project>, ms: map<Id, Membership>)
  {
    forall k :: k in ms && ms[k].project in ps ==> ps[ms[k].project].owner != ms[k].user
  }

  /** `project_roles` is unique on (project_id, name). */
  ghost predicate UniqueRoleNames(rs: map<Id, ProjectRole>)
  {
    forall a, b :: a in rs && b in rs && rs[a].project == rs[b].project && rs[a].name == rs[b].name ==> a == b
  }

  ghost predicate UniqueEmails(us: map<Id, User>)
  {
    forall a, b :: a in us && b in us && us[a].email == us[b].email ==> a == b
  }

  /** The user row with this email, if any (`SELECT ... FROM users WHERE
      email = $1`; emails are unique, see `UniqueEmails`). */
  function UserWithEmail(us: map<Id, User>, email: string): (r: Option<Id>)
    ensures r.None? <==> forall k :: k in us ==> us[k].email != email
    ensures r.Some? ==> r.value in us && us[r.value].email == email
  {
    var ks := set k | k in us && us[k].email == email;
    if ks == {} then
      assert forall k :: k in us && us[k].email == email ==> k in ks;
      None
    else Some(Rows.MinOf(ks))
  }

  /** Some role of `project` is called `name`. */
  predicate HasRoleNamed(rs: map<Id, ProjectRole>, project: Id, name: string)
  {
    exists k :: k in rs && rs[k].project == project && rs[k].name == name
  }

  /** Adding a role under a fresh id keeps names unique when its project
      has no role of that name yet. */
  lemma InsertRoleKeepsNamesUnique(rs: map<Id, ProjectRole>, k: Id, r: ProjectRole)
    requires UniqueRoleNames(rs) && k !in rs && !HasRoleNamed(rs, r.project, r.name)
    ensures UniqueRoleNames(rs[k := r])
  {
  }

  class Database {
    var users: map<Id, User>
    var projects: map<Id, Project>
    var members: map<Id, Membership>
    var roles: map<Id, ProjectRole>
    var boards: map<Id, Board>
    var tasks: map<Id, Task>
    var nextId: Id

    /** Every id in use, and every project a membership, role or board
        refers to, is below `nextId`. */
    ghost predicate IdsIssued()
      reads this
    {
      && (forall k :: k in users ==> k < nextId)
      && (forall k :: k in projects ==> k < nextId)
      && (forall k :: k in members ==> k < nextId && members[k].project < nextId)
      && (forall k :: k in roles ==> k < nextId && roles[k].project < nextId)
      && (forall k :: k in boards ==> k < nextId && boards[k].project < nextId)
      && (forall k :: k in tasks ==> k < nextId)
    }

    ghost predicate Valid()
      reads this
    {
      && IdsIssued()
      && UniqueMemberships(members)
      && OwnersAreNotMembers(projects, members)
      && UniqueRoleNames(roles)
      && UniqueEmails(users)
    }

    constructor ()
      ensures Valid()
      ensures users == map[] && projects == map[] && members == map[] && roles == map[]
      ensures boards == map[] && tasks == map[] && nextId == 0
    {
      users, projects, members, roles := map[], map[], map[], map[];
      boards, tasks, nextId := map[], map[], 0;
    }

    /** Some `project_members` row links `user` to `project`. */
    predicate IsMember(project: Id, user: Id)
      reads this
    {
      exists k :: k in members && members[k].project == project && members[k].user == user
    }

    /** The access test of the task, board and project routes: the project
        exists and the user owns it or has a membership of any role. */
    predicate IsParty(project: Id, user: Id)
      reads this
    {
      project in projects && (projects[project].owner == user || IsMember(project, user))
    }

    predicate IsOwnerOf(project: Id, user: Id)
      reads this
    {
      project in projects && projects[project].owner == user
    }

    /** The membership row of `user` in `project`, if any (the smallest id
        should there be several; the invariant says there is at most one). */
    function MembershipOf(project: Id, user: Id): (r: Option<Id>)
      reads this
      ensures r.None? <==> !IsMember(project, user)
      ensures r.Some? ==> r.value in members && members[r.value].project == project && members[r.value].user == user
    {
      var ks := set k | k in members && members[k].project == project && members[k].user == user;
      if ks == {} then
        assert forall k :: k in members && members[k].project == project && members[k].user == user ==> k in ks;
        None
      else Some(Rows.MinOf(ks))
    }
  }

  lemma MembershipOfIsTheMembership(db: Database, project: Id, user: Id, k: Id)
    requires db.Valid()
    requires k in db.members && db.members[k].project == project && db.members[k].user == user
    ensures db.MembershipOf(project, user) == Some(k)
  {
  }
}
