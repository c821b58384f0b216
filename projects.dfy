/** The project routes: the caller's visible projects newest first with their
    owner and head count, one project, creation (with its three default
    boards and the default custom roles), the owner-only update and the
    owner-only delete. */
module Projects {
  import opened Wrappers
  import opened Store
  import Rows
  import DefaultRoles
  import Permissions

  /** A project with its owner's email and name from a left join: both are
      null when the owner's user row is missing. */
  datatype ProjectDetail = ProjectDetail(id: Id, project: Project, ownerEmail: Option<string>, ownerName: Option<string>)

  /** A row of the project list: the detail plus `member_count`. */
  datatype ProjectSummary = ProjectSummary(detail: ProjectDetail, memberCount: nat)

  function DetailOf(us: map<Id, User>, k: Id, p: Project): (d: ProjectDetail)
    ensures d.id == k && d.project == p
    ensures d.ownerEmail.Some? <==> p.owner in us
    ensures p.owner in us ==> d.ownerEmail == Some(us[p.owner].email) && d.ownerName == us[p.owner].fullName
    ensures p.owner !in us ==> d.ownerName.None?
  {
    if p.owner in us then ProjectDetail(k, p, Some(us[p.owner].email), us[p.owner].fullName)
    else ProjectDetail(k, p, None, None)
  }

  /** The join reads nothing of the users table but the owner's row, and of
      that row only its email and name. */
  lemma DetailReadsOnlyOwnerRow(us: map<Id, User>, vs: map<Id, User>, k: Id, p: Project)
    ensures DetailOf(us, k, p) == DetailOf(vs, k, p) <==>
      && (p.owner in us <==> p.owner in vs)
      && (p.owner in us ==> us[p.owner].email == vs[p.owner].email && us[p.owner].fullName == vs[p.owner].fullName)
  {
  }

  /** The ids of the membership rows of project `k`. */
  function MembershipsOf(ms: map<Id, Membership>, k: Id): set<Id>
  {
    set j | j in ms && ms[j].project == k
  }

  /** The number of membership rows of the project, plus one for the owner. */
  function MemberCount(ms: map<Id, Membership>, k: Id): (n: nat)
    ensures n >= 1
  {
    |MembershipsOf(ms, k)| + 1
  }

  function SummaryOf(us: map<Id, User>, ms: map<Id, Membership>, k: Id, p: Project): ProjectSummary
  {
    ProjectSummary(DetailOf(us, k, p), MemberCount(ms, k))
  }

  /** The projects the user owns or is a member of. */
  function VisibleProjects(db: Database, userId: Id): (v: map<Id, Project>)
    reads db
    ensures forall k :: k in v <==> db.IsParty(k, userId)
    ensures forall k :: k in v ==> k in db.projects && v[k] == db.projects[k]
  {
    map k | k in db.projects && db.IsParty(k, userId) :: db.projects[k]
  }

  function KeepAll(p: Project): bool
  {
    true
  }

  /** `ORDER BY created_at DESC` as an ascending key. */
  function NewestFirst(p: Project): int
  {
    -(p.createdAt as int)
  }

  /** What `GET /projects` answers: every project the user may see exactly
      once, with its detail and head count, and nothing else, newest first. */
  ghost predicate IsProjectList(r: seq<ProjectSummary>, db: Database, userId: Id)
    reads db
  {
    && (forall i :: 0 <= i < |r| ==>
          && db.IsParty(r[i].detail.id, userId)
          && r[i] == SummaryOf(db.users, db.members, r[i].detail.id, db.projects[r[i].detail.id]))
    && (forall k :: db.IsParty(k, userId) ==> exists i :: 0 <= i < |r| && r[i].detail.id == k)
    && (forall i, j :: 0 <= i < j < |r| ==> r[i].detail.id != r[j].detail.id)
    && (forall i, j :: 0 <= i < j < |r| ==> r[i].detail.project.createdAt >= r[j].detail.project.createdAt)
  }

  function Summaries(us: map<Id, User>, ms: map<Id, Membership>, rows: seq<(Id, Project)>): (r: seq<ProjectSummary>)
    ensures |r| == |rows|
    ensures forall i :: 0 <= i < |rows| ==> r[i] == SummaryOf(us, ms, rows[i].0, rows[i].1)
  {
    seq(|rows|, i requires 0 <= i < |rows| => SummaryOf(us, ms, rows[i].0, rows[i].1))
  }

  /** Summarising a listing of the visible projects answers the query. */
  lemma SummarisedListing(db: Database, userId: Id, rows: seq<(Id, Project)>)
    requires Rows.IsListing(rows, VisibleProjects(db, userId), KeepAll, NewestFirst)
    ensures IsProjectList(Summaries(db.users, db.members, rows), db, userId)
  {
    var visible := VisibleProjects(db, userId);
    var r := Summaries(db.users, db.members, rows);
    forall k | db.IsParty(k, userId) ensures exists i :: 0 <= i < |r| && r[i].detail.id == k {
      assert k in visible && KeepAll(visible[k]);
      var i :| 0 <= i < |rows| && rows[i].0 == k;
      assert r[i].detail.id == k;
    }
    forall i, j | 0 <= i < j < |r|
      ensures r[i].detail.project.createdAt >= r[j].detail.project.createdAt
    {
      assert NewestFirst(rows[i].1) <= NewestFirst(rows[j].1);
    }
  }

  /** `GET /projects`. */
  method ListProjects(db: Database, userId: Id) returns (r: seq<ProjectSummary>)
    ensures IsProjectList(r, db, userId)
  {
    var rows := Rows.Listing(VisibleProjects(db, userId), KeepAll, NewestFirst);
    SummarisedListing(db, userId, rows);
    r := Summaries(db.users, db.members, rows);
  }

  /** The distinct people of a project: its owner and the user of every
      membership row. */
  function PartiesOf(db: Database, k: Id): set<Id>
    reads db
    requires k in db.projects
  {
    {db.projects[k].owner} + set j | j in MembershipsOf(db.members, k) :: db.members[j].user
  }

  lemma {:induction false} InjectiveUsersCount(ks: set<Id>, ms: map<Id, Membership>)
    requires forall j :: j in ks ==> j in ms
    requires forall a, b :: a in ks && b in ks && ms[a].user == ms[b].user ==> a == b
    ensures |set j | j in ks :: ms[j].user| == |ks|
    decreases ks
  {
    if ks != {} {
      var x :| x in ks;
      var rest := ks - {x};
      InjectiveUsersCount(rest, ms);
      var image := set j | j in ks :: ms[j].user;
      var restImage := set j | j in rest :: ms[j].user;
      assert image == restImage + {ms[x].user};
      assert ms[x].user !in restImage;
    }
  }

  /** `member_count` is the number of distinct people in the project: the
      owner is never also a member, and nobody is a member twice. */
  lemma MemberCountIsParties(db: Database, k: Id)
    requires db.Valid() && k in db.projects
    ensures MemberCount(db.members, k) == |PartiesOf(db, k)|
  {
    var ks := MembershipsOf(db.members, k);
    InjectiveUsersCount(ks, db.members);
    var users := set j | j in ks :: db.members[j].user;
    assert db.projects[k].owner !in users;
  }

  const ProjectNotFound := Http(404, "Project not found")

  /** `GET /projects/:id`: a project the caller may not see is answered as if
      it did not exist. */
  method GetProject(db: Database, userId: Id, projectId: Id) returns (r: Result<ProjectDetail, Failure>)
    ensures r.Success? <==> db.IsParty(projectId, userId)
    ensures r.Success? ==> r.value == DetailOf(db.users, projectId, db.projects[projectId])
    ensures r.Failure? ==> r.error == ProjectNotFound
  {
    if !db.IsParty(projectId, userId) {
      return Failure(ProjectNotFound);
    }
    return Success(DetailOf(db.users, projectId, db.projects[projectId]));
  }

  /** `createProjectSchema` after parsing. */
  datatype CreateProjectInput = CreateProjectInput(name: string, description: Option<string>)

  /** The boards every new project starts with, at the three ids after the project's. */
  function DefaultBoards(bs: map<Id, Board>, pid: Id): map<Id, Board>
  {
    bs[pid + 1 := Board(pid, "To Do", 0)][pid + 2 := Board(pid, "In Progress", 1)][pid + 3 := Board(pid, "Done", 2)]
  }

  /** How many default roles a seeding run that fails at `failAt` inserts. */
  function SeededCount(failAt: Option<nat>): (n: nat)
    ensures n <= |DefaultRoles.Defaults|
    ensures failAt.None? ==> n == |DefaultRoles.Defaults|
  {
    if failAt.Some? && failAt.value < |DefaultRoles.Defaults| then failAt.value else |DefaultRoles.Defaults|
  }

  /** `POST /projects`: the project (an empty description is stored as null),
      its three boards, then the default roles. The two inserts are separate
      statements with no transaction around them: when the boards insert
      fails (`boardsFail`) the project row stays and the answer is a 500. A
      failure of the seeding is swallowed and the project is still created. */
  method CreateProject(db: Database, userId: Id, input: CreateProjectInput, now: nat,
                       boardsFail: bool, seedFailAt: Option<nat>)
    returns (r: Result<Id, Failure>)
    requires db.Valid()
    modifies db`projects, db`boards, db`roles, db`nextId
    ensures db.Valid()
    ensures r.Success? <==> |input.name| > 0 && !boardsFail
    ensures r.Failure? && |input.name| == 0 ==>
      && r.error == Invalid
      && db.projects == old(db.projects) && db.boards == old(db.boards)
      && db.roles == old(db.roles) && db.nextId == old(db.nextId)
    ensures r.Failure? && |input.name| > 0 ==>
      && r.error == InternalError
      && old(db.nextId) !in old(db.projects)
      && db.projects == old(db.projects)[old(db.nextId) := Project(input.name, OrNull(input.description), userId, now)]
      && db.boards == old(db.boards) && db.roles == old(db.roles) && db.nextId == old(db.nextId) + 1
    ensures r.Success? ==>
      && r.value == old(db.nextId) && r.value !in old(db.projects)
      && db.projects == old(db.projects)[r.value := Project(input.name, OrNull(input.description), userId, now)]
      && db.boards == DefaultBoards(old(db.boards), r.value)
      && (db.roles, db.nextId) ==
           DefaultRoles.Seeded(old(db.roles), r.value + 4, r.value,
             DefaultRoles.Defaults[..SeededCount(seedFailAt)], now)
  {
    if |input.name| == 0 {
      return Failure(Invalid);
    }
    var pid := InsertProject(db, Project(input.name, OrNull(input.description), userId, now));
    if boardsFail {
      return Failure(InternalError);
    }
    InsertDefaultBoards(db, pid);
    var seeded := DefaultRoles.SeedDefaultRoles(db, pid, now, seedFailAt);
    return Success(pid);
  }

  /** The project row, under a fresh id. */
  method InsertProject(db: Database, p: Project) returns (pid: Id)
    requires db.Valid()
    modifies db`projects, db`nextId
    ensures db.Valid() && pid in db.projects
    ensures pid == old(db.nextId) && db.nextId == pid + 1
    ensures db.projects == old(db.projects)[pid := p]
  {
    pid := db.nextId;
    assert pid !in db.projects && forall k :: k in db.members ==> db.members[k].project != pid;
    db.projects := db.projects[pid := p];
    db.nextId := pid + 1;
  }

  /** The three default boards of the project just inserted, under three fresh ids. */
  method InsertDefaultBoards(db: Database, pid: Id)
    requires db.Valid() && pid in db.projects && db.nextId == pid + 1
    modifies db`boards, db`nextId
    ensures db.Valid()
    ensures db.nextId == pid + 4
    ensures db.boards == DefaultBoards(old(db.boards), pid)
  {
    db.boards := DefaultBoards(db.boards, pid);
    db.nextId := pid + 4;
  }

  /** The first `n` default templates have pairwise distinct names, so
      `FreshSeedingIsExact` applies to the roles a new project is seeded with. */
  lemma DefaultPrefixDistinct(n: nat)
    requires n <= |DefaultRoles.Defaults|
    ensures forall i, j :: 0 <= i < j < n ==> DefaultRoles.Defaults[..n][i].name != DefaultRoles.Defaults[..n][j].name
  {
    DefaultRoles.DefaultsShape();
  }

  /** Seeding a project that has no roles, below a counter above every row,
      with pairwise distinct names: the new rows are exactly one per
      template, at consecutive ids. */
  lemma FreshSeedingIsExact(rs: map<Id, ProjectRole>, next: Id, pid: Id, ts: seq<DefaultRoles.RoleTemplate>, now: nat,
                            after: (map<Id, ProjectRole>, Id))
    requires forall k :: k in rs ==> k < next && rs[k].project != pid
    requires forall i, j :: 0 <= i < j < |ts| ==> ts[i].name != ts[j].name
    requires after == DefaultRoles.Seeded(rs, next, pid, ts, now)
    ensures after.1 == next + |ts|
    ensures forall i :: 0 <= i < |ts| ==>
      next + i in after.0 && after.0[next + i] == DefaultRoles.FromTemplate(pid, ts[i], now)
    ensures forall k :: k in after.0 && after.0[k].project == pid ==> next <= k < next + |ts|
    ensures forall k :: k in rs ==> k in after.0 && after.0[k] == rs[k]
  {
    DefaultRoles.SeedingFreshProjectAddsAll(rs, next, pid, ts, now);
    DefaultRoles.SeededOnlyAdds(rs, next, pid, ts, now);
    forall i | 0 <= i < |ts|
      ensures next + i in after.0 && after.0[next + i] == DefaultRoles.FromTemplate(pid, ts[i], now)
    {
      assert ts[next + i - next] == ts[i];
    }
  }

  /** `updateProjectSchema` after parsing. */
  datatype ProjectPatch = ProjectPatch(name: Option<string>, description: Option<string>)
  {
    predicate IsValid()
    {
      name.Some? ==> |name.value| >= 1
    }

    predicate IsEmpty()
    {
      name.None? && description.None?
    }
  }

  /** A supplied description is written as given: unlike creation, the empty
      string stays the empty string. */
  function PatchProject(p: Project, q: ProjectPatch): Project
  {
    p.(name := q.name.GetOr(p.name),
       description := if q.description.Some? then q.description else p.description)
  }

  /** One item of the `UPDATE projects SET ...` list. */
  datatype ProjectColumn = NameColumn(name: string) | DescriptionColumn(description: string)

  function SetProjectColumn(p: Project, c: ProjectColumn): Project
  {
    match c
    case NameColumn(name) => p.(name := name)
    case DescriptionColumn(d) => p.(description := Some(d))
  }

  function SetProjectColumns(p: Project, cs: seq<ProjectColumn>): Project
  {
    if cs == [] then p else SetProjectColumn(SetProjectColumns(p, cs[..|cs| - 1]), cs[|cs| - 1])
  }

  /** Builds the SET list the way the handler does; applying it to any row is
      the field-wise patch, and it is empty exactly for the empty patch. */
  method ProjectUpdates(q: ProjectPatch) returns (updates: seq<ProjectColumn>)
    ensures updates == [] <==> q.IsEmpty()
    ensures forall p :: SetProjectColumns(p, updates) == PatchProject(p, q)
  {
    updates := [];
    if q.name.Some? {
      updates := updates + [NameColumn(q.name.value)];
    }
    if q.description.Some? {
      updates := updates + [DescriptionColumn(q.description.value)];
    }
    forall p ensures SetProjectColumns(p, updates) == PatchProject(p, q) {
      if |updates| == 2 {
        assert updates[..1] == [NameColumn(q.name.value)];
        assert SetProjectColumns(p, updates[..1]) == p.(name := q.name.value);
      } else if |updates| == 1 {
        assert updates[..0] == [];
      }
    }
  }

  /** An update never changes the owner or the creation time; applying the
      same patch twice is applying it once; the empty patch changes nothing. */
  lemma PatchProjectFacts(p: Project, q: ProjectPatch)
    ensures PatchProject(p, q).owner == p.owner && PatchProject(p, q).createdAt == p.createdAt
    ensures PatchProject(PatchProject(p, q), q) == PatchProject(p, q)
    ensures q.IsEmpty() ==> PatchProject(p, q) == p
  {
  }

  const UpdateForbidden := Http(403, "Not authorized to update this project")

  /** `PUT /projects/:id`: the schema first, then ownership, then the empty
      SET list. A missing project is the same 403 as someone else's. */
  method UpdateProject(db: Database, userId: Id, projectId: Id, q: ProjectPatch) returns (r: Result<Project, Failure>)
    requires db.Valid()
    modifies db`projects
    ensures db.Valid()
    ensures !q.IsValid() ==> r == Failure(Invalid)
    ensures q.IsValid() && !old(db.IsOwnerOf(projectId, userId)) ==> r == Failure(UpdateForbidden)
    ensures q.IsValid() && old(db.IsOwnerOf(projectId, userId)) ==>
      if q.IsEmpty() then r == Failure(NoFieldsToUpdate)
      else r == Success(PatchProject(old(db.projects)[projectId], q)) && db.projects == old(db.projects)[projectId := r.value]
    ensures r.Failure? ==> db.projects == old(db.projects)
  {
    if !q.IsValid() {
      return Failure(Invalid);
    }
    if !db.IsOwnerOf(projectId, userId) {
      return Failure(UpdateForbidden);
    }
    var updates := ProjectUpdates(q);
    if updates == [] {
      return Failure(NoFieldsToUpdate);
    }
    var updated := SetProjectColumns(db.projects[projectId], updates);
    db.projects := db.projects[projectId := updated];
    return Success(updated);
  }

  const DeleteForbidden := Http(403, "Not authorized to delete this project")

  /** `DELETE /projects/:id`: one conditional delete matching only the
      owner's project; a missing project is the same 403. */
  method DeleteProject(db: Database, userId: Id, projectId: Id) returns (r: Result<string, Failure>)
    requires db.Valid()
    modifies db`projects
    ensures db.Valid()
    ensures old(db.IsOwnerOf(projectId, userId)) ==>
      r == Success("Project deleted successfully") && db.projects == old(db.projects) - {projectId}
    ensures !old(db.IsOwnerOf(projectId, userId)) ==>
      r == Failure(DeleteForbidden) && db.projects == old(db.projects)
  {
    if !db.IsOwnerOf(projectId, userId) {
      return Failure(DeleteForbidden);
    }
    db.projects := db.projects - {projectId};
    return Success("Project deleted successfully");
  }

  /** Project update and delete test ownership, not the permission chain: an
      admin, or a member whose custom role grants `canManageProject`, passes
      the `canManageProject` gate yet is never the owner, so both routes
      answer them with 403. */
  lemma ProjectManagersCannotChangeProject(db: Database, k: Id)
    requires db.Valid() && k in db.members && db.members[k].project in db.projects
    requires || db.members[k].role == Admin
             || (&& db.members[k].projectRole.Some?
                 && db.members[k].projectRole.value in db.roles
                 && db.roles[db.members[k].projectRole.value].flags.canManageProject)
    ensures Permissions.Authorize(db, db.members[k].user, db.members[k].project, Permissions.CanManageProject) == Pass
    ensures !db.IsOwnerOf(db.members[k].project, db.members[k].user)
  {
    Permissions.MemberPermissions(db, db.members[k].project, k);
  }
}
